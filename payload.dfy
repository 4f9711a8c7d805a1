/**
 * The JSON body the onboarding wizard posts, as the endpoint and the validator
 * read it. Every field may be absent (None). Text fields are strings, age is a
 * number, and each collection is either an array (Some) or something else (None).
 */
module Payload {
  import opened Wrappers

  /** An element of the skillsOffered or learningGoals arrays: a plain string or an object. */
  datatype Entry = Text(text: string) | Named(name: Option<string>)

  /**
   * The socialLinks value: an object (a map from platform to URL, or an array,
   * for which JavaScript's typeof is also "object"), or any non-object value.
   */
  datatype Links = LinkMap(links: map<string, string>) | LinkList(items: seq<string>) | NotObject

  datatype Submission = Submission(
    name: Option<string>,
    displayName: Option<string>,
    username: Option<string>,
    occupation: Option<string>,
    timezone: Option<string>,
    age: Option<int>,
    bio: Option<string>,
    avatarUrl: Option<string>,
    location: Option<string>,
    walletAddress: Option<string>,
    interests: Option<seq<string>>,
    preferredLanguages: Option<seq<string>>,
    skillsOffered: Option<seq<Entry>>,
    learningGoals: Option<seq<Entry>>,
    userIntent: Option<seq<string>>,
    userAvailability: Option<seq<string>>,
    socialLinks: Option<Links>
  )
}
