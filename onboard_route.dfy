/**
 * The onboarding endpoint. POST refuses a submission on any of six conditions
 * checked in a fixed order (no identity, validation errors, then four that read
 * the user store: no record, already onboarded, username taken, wallet taken), and
 * otherwise reshapes it into the stored record and writes that record once,
 * marking the user onboarded. GET reports whether the caller has a record and
 * whether it is onboarded.
 */
module OnboardRoute {
  import opened Wrappers
  import opened Text
  import opened Payload
  import opened Validation

  /** A stored user record; null columns are None. */
  datatype User = User(
    clerkId: string,
    name: Option<string>,
    username: Option<string>,
    occupation: Option<string>,
    timezone: Option<string>,
    age: Option<int>,
    bio: Option<string>,
    avatarUrl: Option<string>,
    location: Option<string>,
    walletAddress: Option<string>,
    interests: seq<string>,
    preferredLanguages: seq<string>,
    skillsOffered: seq<string>,
    learningGoals: seq<string>,
    userIntent: seq<string>,
    userAvailability: seq<string>,
    socialLinks: Option<Links>,
    hasOnboarded: bool
  )

  /** The users table, keyed by clerkId. */
  type Users = map<string, User>

  /** Each record is stored under its own clerkId. */
  ghost predicate KeyedByClerkId(users: Users) {
    forall k :: k in users ==> users[k].clerkId == k
  }

  // ---------------------------------------------------------------------------
  // Reshaping the body into the stored record

  /** `String(s)` of a plain object. */
  const ObjectText: string := "[object Object]"

  /**
   * An update value that is absent (undefined) leaves the column as it is;
   * a present one replaces it.
   */
  function Assigned<T>(v: Option<T>, current: Option<T>): (r: Option<T>)
    ensures v.Some? ==> r == v
    ensures v.None? ==> r == current
  {
    if v.Some? then v else current
  }

  /**
   * `s && s.trim() ? s.trim() : fallback`: the trimmed text when there is some
   * non-whitespace, otherwise the fallback.
   */
  function TrimmedOr(s: Option<string>, fallback: Option<string>): (r: Option<string>)
    ensures s.Some? && !IsBlank(s.value) ==> r == Some(Trim(s.value))
    ensures s.None? || IsBlank(s.value) ==> r == fallback
    ensures r != fallback ==> r.Some? && r.value != "" && !IsSpace(r.value[0]) && !IsSpace(r.value[|r.value| - 1])
  {
    if Truthy(s) && Trim(s.value) != "" then Some(Trim(s.value)) else fallback
  }

  /** `filter(Boolean)` on an array of strings: the empty strings are dropped, the rest kept in order. */
  function Compact(xs: seq<string>): (r: seq<string>)
    ensures |r| <= |xs|
    ensures "" !in r
    ensures forall x :: x in r <==> x in xs && x != ""
    ensures "" !in xs ==> r == xs
  {
    if xs == [] then []
    else (if xs[0] == "" then [] else [xs[0]]) + Compact(xs[1..])
  }

  /** `typeof s === "string" ? s : s.name || String(s)`. */
  function EntryText(e: Entry): (r: string)
    ensures e.Text? ==> r == e.text
    ensures e.Named? && Truthy(e.name) ==> r == e.name.value
    ensures e.Named? && !Truthy(e.name) ==> r == ObjectText
  {
    match e
    case Text(t) => t
    case Named(n) => if Truthy(n) then n.value else ObjectText
  }

  /** The entries of a skills array reduced to text, in order. */
  function EntryTexts(es: seq<Entry>): (r: seq<string>)
    ensures |r| == |es|
    ensures forall i :: 0 <= i < |es| ==> r[i] == EntryText(es[i])
  {
    if es == [] then [] else [EntryText(es[0])] + EntryTexts(es[1..])
  }

  /** `Array.isArray(v) ? v.filter(Boolean) : []`. */
  function StringList(v: Option<seq<string>>): (r: seq<string>)
    ensures "" !in r
    ensures v.None? ==> r == []
    ensures v.Some? ==> forall x :: x in r <==> x in v.value && x != ""
    ensures v.Some? && "" !in v.value ==> r == v.value
  {
    if v.Some? then Compact(v.value) else []
  }

  /** `Array.isArray(v) ? v.map(toText).filter(Boolean) : []`. */
  function SkillList(v: Option<seq<Entry>>): (r: seq<string>)
    ensures "" !in r
    ensures v.None? ==> r == []
    ensures v.Some? ==> forall x :: x in r <==> x in EntryTexts(v.value) && x != ""
    ensures v.Some? && "" !in EntryTexts(v.value) ==> r == EntryTexts(v.value)
  {
    if v.Some? then Compact(EntryTexts(v.value)) else []
  }

  /** `v && typeof v === "object" ? v : null`. */
  function StoredLinks(v: Option<Links>): (r: Option<Links>)
    ensures r.Some? <==> v.Some? && !v.value.NotObject?
    ensures r.Some? ==> r == v
  {
    if v.Some? && (v.value.LinkMap? || v.value.LinkList?) then v else None
  }

  /** `body.name || body.displayName`. */
  function SubmittedName(body: Submission): (r: Option<string>)
    ensures Truthy(body.name) ==> r == body.name
    ensures !Truthy(body.name) ==> r == body.displayName
  {
    if Truthy(body.name) then body.name else body.displayName
  }

  /** The record the successful update leaves under the caller's clerkId (updateData applied to existing). */
  function Reshape(body: Submission, existing: User): (u: User)
    ensures u.clerkId == existing.clerkId
    ensures u.hasOnboarded
    ensures u.name == Assigned(SubmittedName(body), existing.name)
    ensures u.username == Assigned(body.username, existing.username)
    ensures u.occupation == Assigned(body.occupation, existing.occupation)
    ensures u.timezone == Assigned(body.timezone, existing.timezone)
    ensures u.age == Assigned(body.age, existing.age)
    ensures u.bio == TrimmedOr(body.bio, None)
    ensures u.avatarUrl == TrimmedOr(body.avatarUrl, existing.avatarUrl)
    ensures u.location == TrimmedOr(body.location, None)
    ensures u.walletAddress == TrimmedOr(body.walletAddress, None)
    ensures u.interests == StringList(body.interests)
    ensures u.preferredLanguages == StringList(body.preferredLanguages)
    ensures u.skillsOffered == SkillList(body.skillsOffered)
    ensures u.learningGoals == SkillList(body.learningGoals)
    ensures u.userIntent == StringList(body.userIntent)
    ensures u.userAvailability == StringList(body.userAvailability)
    ensures u.socialLinks == StoredLinks(body.socialLinks)
  {
    User(
      clerkId := existing.clerkId,
      name := Assigned(SubmittedName(body), existing.name),
      username := Assigned(body.username, existing.username),
      occupation := Assigned(body.occupation, existing.occupation),
      timezone := Assigned(body.timezone, existing.timezone),
      age := Assigned(body.age, existing.age),
      bio := TrimmedOr(body.bio, None),
      avatarUrl := TrimmedOr(body.avatarUrl, existing.avatarUrl),
      location := TrimmedOr(body.location, None),
      walletAddress := TrimmedOr(body.walletAddress, None),
      interests := StringList(body.interests),
      preferredLanguages := StringList(body.preferredLanguages),
      skillsOffered := SkillList(body.skillsOffered),
      learningGoals := SkillList(body.learningGoals),
      userIntent := StringList(body.userIntent),
      userAvailability := StringList(body.userAvailability),
      socialLinks := StoredLinks(body.socialLinks),
      hasOnboarded := true
    )
  }

  // ---------------------------------------------------------------------------
  // The decision sequence of POST

  datatype PostResponse =
    | Unauthorized
    | ValidationFailed(errors: seq<ValidationError>)
    | UserNotFound
    | AlreadyOnboarded
    | UsernameTaken
    | WalletAlreadyConnected
    | Onboarded(user: User)
  {
    /** The HTTP status of the response. */
    function Status(): int {
      match this
      case Unauthorized => 401
      case UserNotFound => 404
      case Onboarded(_) => 200
      case _ => 400
    }

    /** The machine-readable `code` of the response body, where it has one. */
    function Code(): Option<string> {
      match this
      case ValidationFailed(_) => Some("VALIDATION_ERROR")
      case UserNotFound => Some("USER_NOT_FOUND")
      case AlreadyOnboarded => Some("ALREADY_ONBOARDED")
      case UsernameTaken => Some("USERNAME_TAKEN")
      case WalletAlreadyConnected => Some("WALLET_ALREADY_CONNECTED")
      case _ => None
    }
  }

  /** Some record holds this username. */
  predicate UsernameHeld(users: Users, username: string) {
    exists k :: k in users && users[k].username == Some(username)
  }

  /** Some record other than the caller's holds this wallet address. */
  predicate WalletHeldElsewhere(users: Users, wallet: string, userId: string) {
    exists k :: k in users && k != userId && users[k].walletAddress == Some(wallet)
  }

  /** The username check: a truthy username that is not the caller's own and is held by a record. */
  predicate UsernameConflict(users: Users, body: Submission, existing: User) {
    Truthy(body.username) && body.username != existing.username && UsernameHeld(users, body.username.value)
  }

  /** The wallet check, on the untrimmed address as it was sent. */
  predicate WalletConflict(users: Users, body: Submission, userId: string) {
    Truthy(body.walletAddress) && WalletHeldElsewhere(users, body.walletAddress.value, userId)
  }

  /**
   * The reference definition of POST's response for a store, an identity and a body.
   * `!userId` refuses an absent identity and the empty string alike.
   */
  function SubmitOutcome(users: Users, userId: Option<string>, body: Submission): (r: PostResponse)
    ensures r.Status() == 401 <==> !Truthy(userId)
    ensures r.ValidationFailed? ==> r.errors == ExpectedErrors(body) && r.errors != []
    ensures r.Onboarded? ==>
      Truthy(userId) && userId.value in users && !users[userId.value].hasOnboarded &&
      r.user == Reshape(body, users[userId.value])
  {
    if !Truthy(userId) then Unauthorized
    else if ExpectedErrors(body) != [] then ValidationFailed(ExpectedErrors(body))
    else if userId.value !in users then UserNotFound
    else if users[userId.value].hasOnboarded then AlreadyOnboarded
    else if UsernameConflict(users, body, users[userId.value]) then UsernameTaken
    else if WalletConflict(users, body, userId.value) then WalletAlreadyConnected
    else Onboarded(Reshape(body, users[userId.value]))
  }

  /** The store after POST: the caller's record replaced on success, untouched otherwise. */
  function StoreAfter(users: Users, userId: Option<string>, body: Submission): (after: Users)
    ensures !SubmitOutcome(users, userId, body).Onboarded? ==> after == users
    ensures after.Keys == users.Keys
    ensures forall k :: k in users && userId != Some(k) ==> after[k] == users[k]
  {
    var r := SubmitOutcome(users, userId, body);
    if r.Onboarded? && userId.Some? then users[userId.value := r.user] else users
  }

  // ---------------------------------------------------------------------------
  // GET

  datatype StatusResponse =
    | StatusUnauthorized
    | UserStatus(userExists: bool, onboarded: bool, user: Option<User>)

  /** The reference definition of GET's response. */
  function StatusReport(users: Users, userId: Option<string>): (r: StatusResponse)
    ensures r.StatusUnauthorized? <==> !Truthy(userId)
    ensures Truthy(userId) && userId.value !in users ==> r == UserStatus(false, false, None)
    ensures Truthy(userId) && userId.value in users ==>
      r == UserStatus(true, users[userId.value].hasOnboarded, Some(users[userId.value]))
  {
    if !Truthy(userId) then StatusUnauthorized
    else if userId.value !in users then UserStatus(false, false, None)
    else if users[userId.value].hasOnboarded then UserStatus(true, true, Some(users[userId.value]))
    else UserStatus(true, false, Some(users[userId.value]))
  }

  // ---------------------------------------------------------------------------
  // The store and the two handlers

  class UserStore {
    var users: Users

    ghost predicate Valid()
      reads this
    {
      KeyedByClerkId(users)
    }

    constructor (initial: Users)
      requires KeyedByClerkId(initial)
      ensures Valid() && users == initial
    {
      users := initial;
    }

    /** `prisma.user.findUnique({ where: { username } })`. */
    method FindByUsername(username: string) returns (found: Option<User>)
      ensures found.Some? <==> UsernameHeld(users, username)
      ensures found.Some? ==> found.value in users.Values && found.value.username == Some(username)
    {
      if k :| k in users && users[k].username == Some(username) {
        found := Some(users[k]);
      } else {
        found := None;
      }
    }

    /** `prisma.user.findFirst({ where: { walletAddress: wallet, clerkId: { not: userId } } })`. */
    method FindWalletElsewhere(wallet: string, userId: string) returns (found: Option<User>)
      ensures found.Some? <==> WalletHeldElsewhere(users, wallet, userId)
      ensures found.Some? ==> exists k :: k in users && k != userId && users[k] == found.value
      ensures found.Some? ==> found.value.walletAddress == Some(wallet)
      ensures found.Some? && Valid() ==> found.value.clerkId != userId
    {
      if k :| k in users && k != userId && users[k].walletAddress == Some(wallet) {
        found := Some(users[k]);
      } else {
        found := None;
      }
    }

    /** POST /api/onboard: early returns on each refusal, one update on success. */
    method Post(userId: Option<string>, body: Submission) returns (res: PostResponse)
      requires Valid()
      modifies this
      ensures Valid()
      ensures res == SubmitOutcome(old(users), userId, body)
      ensures users == StoreAfter(old(users), userId, body)
      ensures !res.Onboarded? ==> users == old(users)
    {
      if !Truthy(userId) {
        return Unauthorized;
      }
      var id := userId.value;

      var validationErrors := ValidateCompleteForm(body);
      if |validationErrors| > 0 {
        return ValidationFailed(validationErrors);
      }

      if id !in users {
        return UserNotFound;
      }
      var existingUser := users[id];
      if existingUser.hasOnboarded {
        return AlreadyOnboarded;
      }

      if Truthy(body.username) && body.username != existingUser.username {
        var usernameExists := FindByUsername(body.username.value);
        if usernameExists.Some? {
          return UsernameTaken;
        }
      }

      if Truthy(body.walletAddress) {
        var walletExists := FindWalletElsewhere(body.walletAddress.value, id);
        if walletExists.Some? {
          return WalletAlreadyConnected;
        }
      }

      var updateData := Reshape(body, existingUser);
      users := users[id := updateData];
      return Onboarded(updateData);
    }

    /** GET /api/onboard: reads the caller's record and changes nothing. */
    method Get(userId: Option<string>) returns (r: StatusResponse)
      ensures r == StatusReport(users, userId)
    {
      if !Truthy(userId) {
        return StatusUnauthorized;
      }
      if userId.value !in users {
        return UserStatus(false, false, None);
      }
      var existingUser := users[userId.value];
      if existingUser.hasOnboarded {
        return UserStatus(true, true, Some(existingUser));
      }
      return UserStatus(true, false, Some(existingUser));
    }
  }

  // ---------------------------------------------------------------------------
  // Properties of the reshaping

  /** filter(Boolean) keeps order: compacting a concatenation compacts each part. */
  lemma {:induction false} CompactAppend(a: seq<string>, b: seq<string>)
    ensures Compact(a + b) == Compact(a) + Compact(b)
  {
    if a != [] {
      assert (a + b)[0] == a[0];
      assert (a + b)[1..] == a[1..] + b;
      CompactAppend(a[1..], b);
      var head := if a[0] == "" then [] else [a[0]];
      assert Compact(a + b) == head + Compact(a[1..] + b);
      assert Compact(a) == head + Compact(a[1..]);
    } else {
      assert a + b == b;
    }
  }

  /** A stored optional text is a fixed point: storing it again gives the same value. */
  lemma TrimmedOrIdempotent(s: Option<string>)
    ensures TrimmedOr(TrimmedOr(s, None), None) == TrimmedOr(s, None)
  {
    var r := TrimmedOr(s, None);
    if r.Some? {
      TrimOfTrimmed(r.value);
      assert !IsBlank(r.value) by { assert !IsSpace(r.value[0]); }
    }
  }

  /** Once the body has passed validation, the stored name, occupation, timezone and age are the submitted ones. */
  lemma ValidatedFieldsStored(body: Submission, existing: User)
    requires Complete(body)
    ensures Reshape(body, existing).name == body.name
    ensures Reshape(body, existing).occupation == body.occupation
    ensures Reshape(body, existing).timezone == body.timezone
    ensures Reshape(body, existing).age == body.age && body.age.Some? && body.age.value >= MinimumAge
  {
  }

  /** `[{name: "Chess"}, "Guitar", ""]` is stored as `["Chess", "Guitar"]`. */
  lemma SkillListExample()
    ensures SkillList(Some([Named(Some("Chess")), Text("Guitar"), Text("")])) == ["Chess", "Guitar"]
  {
    var es := [Named(Some("Chess")), Text("Guitar"), Text("")];
    assert EntryTexts(es) == ["Chess", "Guitar", ""];
    CompactAppend(["Chess", "Guitar"], [""]);
  }

  // ---------------------------------------------------------------------------
  // Properties of POST

  /** The state the username check is reached in: a complete body from a caller whose record is not yet onboarded. */
  predicate ReachesConflictChecks(users: Users, userId: string, body: Submission) {
    userId != "" && Complete(body) && userId in users && !users[userId].hasOnboarded
  }

  /** Every check passes: the submission is accepted. */
  predicate Accepted(users: Users, userId: string, body: Submission) {
    ReachesConflictChecks(users, userId, body) &&
    !UsernameConflict(users, body, users[userId]) && !WalletConflict(users, body, userId)
  }

  /** POST succeeds exactly when an identity is given and the submission passes every check. */
  lemma SuccessIff(users: Users, userId: Option<string>, body: Submission)
    ensures SubmitOutcome(users, userId, body).Onboarded? <==> Truthy(userId) && Accepted(users, userId.value, body)
  {
    NoErrorsIff(body);
  }

  /** Without an identity (absent or empty) the answer is 401, whatever the store holds, and nothing is written. */
  lemma NoIdentityUnauthorized(users: Users, other: Users, userId: Option<string>, body: Submission)
    requires !Truthy(userId)
    ensures SubmitOutcome(users, userId, body) == Unauthorized
    ensures SubmitOutcome(users, userId, body) == SubmitOutcome(other, userId, body)
    ensures SubmitOutcome(users, userId, body).Status() == 401
    ensures StoreAfter(users, userId, body) == users
    ensures StatusReport(users, userId) == StatusUnauthorized
  {
  }

  /** A body the validator rejects gets 400 VALIDATION_ERROR with exactly its error list, whatever the store holds. */
  lemma InvalidBodyRejected(users: Users, other: Users, userId: string, body: Submission)
    requires userId != ""
    requires ExpectedErrors(body) != []
    ensures SubmitOutcome(users, Some(userId), body) == ValidationFailed(ExpectedErrors(body))
    ensures SubmitOutcome(users, Some(userId), body) == SubmitOutcome(other, Some(userId), body)
    ensures SubmitOutcome(users, Some(userId), body).Status() == 400
    ensures SubmitOutcome(users, Some(userId), body).Code() == Some("VALIDATION_ERROR")
    ensures StoreAfter(users, Some(userId), body) == users
  {
  }

  /** Every refusal leaves the store as it was. */
  lemma RefusalWritesNothing(users: Users, userId: Option<string>, body: Submission)
    requires !SubmitOutcome(users, userId, body).Onboarded?
    ensures StoreAfter(users, userId, body) == users
    ensures SubmitOutcome(users, userId, body).Status() != 200
  {
  }

  /** A valid body from a caller without a record gets 404 USER_NOT_FOUND; from an onboarded caller, 400 ALREADY_ONBOARDED. */
  lemma MissingOrOnboardedRejected(users: Users, userId: string, body: Submission)
    requires userId != ""
    requires Complete(body)
    ensures userId !in users ==> SubmitOutcome(users, Some(userId), body) == UserNotFound
    ensures userId !in users ==> SubmitOutcome(users, Some(userId), body).Status() == 404
    ensures userId in users && users[userId].hasOnboarded ==>
      SubmitOutcome(users, Some(userId), body) == AlreadyOnboarded
    ensures userId in users && users[userId].hasOnboarded ==>
      SubmitOutcome(users, Some(userId), body).Code() == Some("ALREADY_ONBOARDED")
  {
    NoErrorsIff(body);
  }

  /** After a successful submission every later submission by the same caller is refused and writes nothing. */
  lemma ResubmissionRefused(users: Users, userId: string, first: Submission, second: Submission)
    requires Accepted(users, userId, first)
    ensures var after := StoreAfter(users, Some(userId), first);
      && (SubmitOutcome(after, Some(userId), second) == AlreadyOnboarded ||
          SubmitOutcome(after, Some(userId), second).ValidationFailed?)
      && StoreAfter(after, Some(userId), second) == after
  {
    AcceptedWithoutConflict(users, userId, first);
  }


  /** Past the earlier checks, USERNAME_TAKEN is answered exactly for a truthy username that differs from the caller's and is held. */
  lemma UsernameTakenIff(users: Users, userId: string, body: Submission)
    requires ReachesConflictChecks(users, userId, body)
    ensures SubmitOutcome(users, Some(userId), body) == UsernameTaken <==>
      body.username.Some? && body.username.value != "" &&
      body.username != users[userId].username && UsernameHeld(users, body.username.value)
  {
    NoErrorsIff(body);
  }

  /** A valid body from a caller not yet onboarded that meets neither conflict is accepted and written. */
  lemma AcceptedWithoutConflict(users: Users, userId: string, body: Submission)
    requires Accepted(users, userId, body)
    ensures SubmitOutcome(users, Some(userId), body) == Onboarded(Reshape(body, users[userId]))
    ensures StoreAfter(users, Some(userId), body) == users[userId := Reshape(body, users[userId])]
  {
    NoErrorsIff(body);
  }

  /** Resubmitting the caller's own current username never triggers USERNAME_TAKEN. */
  lemma OwnUsernameNeverTaken(users: Users, userId: string, body: Submission)
    requires userId in users && body.username == users[userId].username
    ensures SubmitOutcome(users, Some(userId), body) != UsernameTaken
  {
  }

  /** Past the username check, WALLET_ALREADY_CONNECTED is answered exactly for a truthy address held by another record. */
  lemma WalletTakenIff(users: Users, userId: string, body: Submission)
    requires ReachesConflictChecks(users, userId, body)
    requires !UsernameConflict(users, body, users[userId])
    ensures SubmitOutcome(users, Some(userId), body) == WalletAlreadyConnected <==>
      body.walletAddress.Some? && body.walletAddress.value != "" &&
      exists k :: k in users && k != userId && users[k].walletAddress == body.walletAddress
  {
    NoErrorsIff(body);
  }

  /** An address held only by the caller's own record is never a conflict. */
  lemma OwnWalletNeverConflict(users: Users, userId: string, body: Submission)
    requires UniqueWallets(users)
    requires userId in users && body.walletAddress == users[userId].walletAddress
    ensures SubmitOutcome(users, Some(userId), body) != WalletAlreadyConnected
  {
  }

  /**
   * On success only the caller's record changes: it becomes the reshaped body,
   * marked onboarded, and every other record and the set of clerkIds stay as they were.
   */
  lemma SuccessChangesOnlyCaller(users: Users, userId: string, body: Submission)
    requires Accepted(users, userId, body)
    ensures var after := StoreAfter(users, Some(userId), body);
      && after.Keys == users.Keys
      && after[userId] == Reshape(body, users[userId])
      && after[userId] == SubmitOutcome(users, Some(userId), body).user
      && after[userId].hasOnboarded && !users[userId].hasOnboarded
      && after[userId].clerkId == users[userId].clerkId
      && (forall k :: k in users && k != userId ==> after[k] == users[k])
  {
    AcceptedWithoutConflict(users, userId, body);
  }

  /** After a successful POST, GET reports the caller as existing and onboarded, with the stored record. */
  lemma StatusAfterSuccess(users: Users, userId: string, body: Submission)
    requires Accepted(users, userId, body)
    ensures StatusReport(StoreAfter(users, Some(userId), body), Some(userId)) ==
      UserStatus(true, true, Some(Reshape(body, users[userId])))
  {
    AcceptedWithoutConflict(users, userId, body);
  }

  // ---------------------------------------------------------------------------
  // Uniqueness of usernames and wallet addresses

  /** No two records share a non-null username. */
  ghost predicate UniqueUsernames(users: Users) {
    forall j, k :: j in users && k in users && j != k && users[j].username.Some? ==>
      users[j].username != users[k].username
  }

  /** No two records share a non-null wallet address. */
  ghost predicate UniqueWallets(users: Users) {
    forall j, k :: j in users && k in users && j != k && users[j].walletAddress.Some? ==>
      users[j].walletAddress != users[k].walletAddress
  }

  /** The username check keeps usernames unique, except for the empty username, which it never checks. */
  lemma UsernamesStayUnique(users: Users, userId: Option<string>, body: Submission)
    requires UniqueUsernames(users)
    requires body.username != Some("")
    ensures UniqueUsernames(StoreAfter(users, userId, body))
  {
    var after := StoreAfter(users, userId, body);
    if SubmitOutcome(users, userId, body).Onboarded? {
      var id := userId.value;
      forall j, k | j in after && k in after && j != k && after[j].username.Some?
        ensures after[j].username != after[k].username
      {
        if body.username.Some? && body.username != users[id].username && (j == id || k == id) {
          assert !UsernameHeld(users, body.username.value);
          var other := if j == id then k else j;
          assert users[other].username != body.username;
        }
      }
    }
  }

  /**
   * The wallet check keeps addresses unique when the address is sent already
   * trimmed: it compares the address as sent, while the trimmed one is stored.
   */
  lemma WalletsStayUnique(users: Users, userId: Option<string>, body: Submission)
    requires UniqueWallets(users)
    requires body.walletAddress.Some? ==> Trim(body.walletAddress.value) == body.walletAddress.value
    ensures UniqueWallets(StoreAfter(users, userId, body))
  {
    var after := StoreAfter(users, userId, body);
    if SubmitOutcome(users, userId, body).Onboarded? {
      var id := userId.value;
      forall j, k | j in after && k in after && j != k && after[j].walletAddress.Some?
        ensures after[j].walletAddress != after[k].walletAddress
      {
        if j == id || k == id {
          var other := if j == id then k else j;
          if after[id].walletAddress.Some? {
            assert after[id].walletAddress == body.walletAddress;
            assert !WalletHeldElsewhere(users, body.walletAddress.value, id);
            assert users[other].walletAddress != body.walletAddress;
          }
        }
      }
    }
  }

  /** A user with no username and a user whose username is the empty string. */
  function EmptyUsernameStore(): (users: Users)
    ensures users.Keys == {"a", "b"}
    ensures users["a"].username == None && !users["a"].hasOnboarded && users["a"].walletAddress == None
    ensures users["b"].username == Some("")
  {
    var newcomer := User("a", None, None, None, None, None, None, None, None, None, [], [], [], [], [], [], None, false);
    var taken := newcomer.(clerkId := "b", username := Some(""), hasOnboarded := true);
    map["a" := newcomer, "b" := taken]
  }

  lemma EmptyUsernameStoreUnique()
    ensures UniqueUsernames(EmptyUsernameStore())
  {
  }

  /** Submitting the empty username skips the check and stores a second empty username. */
  lemma EmptyUsernameDuplicated()
    ensures var body := Basic(Some("Ada"), Some("Student"), Some("UTC"), Some(20)).(username := Some(""));
      && UniqueUsernames(EmptyUsernameStore())
      && SubmitOutcome(EmptyUsernameStore(), Some("a"), body).Onboarded?
      && !UniqueUsernames(StoreAfter(EmptyUsernameStore(), Some("a"), body))
  {
    var users := EmptyUsernameStore();
    var body := Basic(Some("Ada"), Some("Student"), Some("UTC"), Some(20)).(username := Some(""));
    AcceptedWithoutConflict(users, "a", body);
    var after := StoreAfter(users, Some("a"), body);
    assert after["a"].username == Some("");
    assert after["a"].username == after["b"].username;
    EmptyUsernameStoreUnique();
  }

  /** A user with no wallet and a user holding the wallet "0xabc". */
  function WalletStore(): (users: Users)
    ensures users.Keys == {"a", "b"}
    ensures users["a"].walletAddress == None && !users["a"].hasOnboarded && users["a"].username == None
    ensures users["b"].walletAddress == Some("0xabc")
  {
    var newcomer := User("a", None, None, None, None, None, None, None, None, None, [], [], [], [], [], [], None, false);
    var holder := newcomer.(clerkId := "b", walletAddress := Some("0xabc"), hasOnboarded := true);
    map["a" := newcomer, "b" := holder]
  }

  lemma PaddedWalletTrimmed()
    ensures TrimmedOr(Some(" 0xabc"), None) == Some("0xabc")
  {
    assert LeadingSpaces("0xabc") == 0;
    assert LeadingSpaces(" 0xabc") == 1 by { assert " 0xabc"[1..] == "0xabc"; }
    assert TrailingSpaces("0xabc") == 0 by { assert "0xabc"[4] == 'c'; }
    assert Trim(" 0xabc") == " 0xabc"[1..6];
    assert " 0xabc"[1..6] == "0xabc";
  }

  lemma WalletStoreUnique()
    ensures UniqueWallets(WalletStore())
  {
  }

  /** Submitting " 0xabc" passes the check on the raw address and stores a second "0xabc". */
  lemma PaddedWalletDuplicated()
    ensures var body := Basic(Some("Ada"), Some("Student"), Some("UTC"), Some(20)).(walletAddress := Some(" 0xabc"));
      && UniqueWallets(WalletStore())
      && SubmitOutcome(WalletStore(), Some("a"), body).Onboarded?
      && !UniqueWallets(StoreAfter(WalletStore(), Some("a"), body))
  {
    var users := WalletStore();
    var body := Basic(Some("Ada"), Some("Student"), Some("UTC"), Some(20)).(walletAddress := Some(" 0xabc"));
    assert " 0xabc" != "0xabc" by { assert |" 0xabc"| != |"0xabc"|; }
    assert !WalletHeldElsewhere(users, " 0xabc", "a");
    AcceptedWithoutConflict(users, "a", body);
    PaddedWalletTrimmed();
    var after := StoreAfter(users, Some("a"), body);
    assert after["a"].walletAddress == Some("0xabc");
    assert after["a"].walletAddress == after["b"].walletAddress;
    WalletStoreUnique();
  }
}
