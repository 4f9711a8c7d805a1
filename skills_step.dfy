/**
 * The "skills to teach" step of the onboarding wizard: the list of skills the
 * user offers, built by adding preset or typed-in skills and removing them, and
 * the gate that lets the user continue only once the list is non-empty.
 */
module SkillsToTeach {
  import opened Text

  /** No skill occurs twice. */
  predicate NoDuplicates(skills: seq<string>) {
    forall i, j :: 0 <= i < j < |skills| ==> skills[i] != skills[j]
  }

  /** `[...skills, skill]` unless the skill is already listed. */
  function WithSkill(skills: seq<string>, skill: string): (r: seq<string>)
    ensures skill in r
    ensures skill in skills ==> r == skills
    ensures skill !in skills ==> |r| == |skills| + 1 && r[..|skills|] == skills && r[|skills|] == skill
    ensures forall x :: x in r <==> x in skills || x == skill
    ensures NoDuplicates(skills) ==> NoDuplicates(r)
  {
    if skill in skills then skills else skills + [skill]
  }

  /** `skills.filter(s => s !== skill)`. */
  function WithoutSkill(skills: seq<string>, skill: string): (r: seq<string>)
    ensures |r| <= |skills|
    ensures skill !in r
    ensures forall x :: x in r <==> x in skills && x != skill
    ensures multiset(r) == multiset(skills)[skill := 0]
  {
    if skills == [] then []
    else
      assert skills == [skills[0]] + skills[1..];
      (if skills[0] == skill then [] else [skills[0]]) + WithoutSkill(skills[1..], skill)
  }

  /** Removing keeps the other skills in their order: filtering a concatenation filters each part. */
  lemma {:induction false} WithoutSkillAppend(a: seq<string>, b: seq<string>, skill: string)
    ensures WithoutSkill(a + b, skill) == WithoutSkill(a, skill) + WithoutSkill(b, skill)
  {
    if a == [] {
      assert a + b == b;
    } else {
      assert (a + b)[0] == a[0];
      assert (a + b)[1..] == a[1..] + b;
      WithoutSkillAppend(a[1..], b, skill);
      var head := if a[0] == skill then [] else [a[0]];
      assert WithoutSkill(a + b, skill) == head + WithoutSkill(a[1..] + b, skill);
    }
  }

  /** Removing a skill that is not listed changes nothing. */
  lemma {:induction false} WithoutAbsentSkill(skills: seq<string>, skill: string)
    requires skill !in skills
    ensures WithoutSkill(skills, skill) == skills
  {
    if skills != [] {
      assert skills[1..] + [] == skills[1..];
      WithoutAbsentSkill(skills[1..], skill);
      assert skills == [skills[0]] + skills[1..];
    }
  }

  /** Removing twice is removing once. */
  lemma WithoutSkillIdempotent(skills: seq<string>, skill: string)
    ensures WithoutSkill(WithoutSkill(skills, skill), skill) == WithoutSkill(skills, skill)
  {
    WithoutAbsentSkill(WithoutSkill(skills, skill), skill);
  }

  /** Removing keeps a duplicate-free list duplicate-free. */
  lemma {:induction false} WithoutSkillNoDuplicates(skills: seq<string>, skill: string)
    ensures NoDuplicates(skills) ==> NoDuplicates(WithoutSkill(skills, skill))
  {
    if skills != [] && NoDuplicates(skills) {
      var rest := WithoutSkill(skills[1..], skill);
      assert NoDuplicates(skills[1..]);
      WithoutSkillNoDuplicates(skills[1..], skill);
      assert skills[0] !in skills[1..];
      assert skills[0] !in rest;
    }
  }

  /** Removing a skill just added to a list that lacked it gives the list back. */
  lemma AddThenRemove(skills: seq<string>, skill: string)
    requires skill !in skills
    ensures WithoutSkill(WithSkill(skills, skill), skill) == skills
  {
    WithoutSkillAppend(skills, [skill], skill);
    WithoutAbsentSkill(skills, skill);
    assert WithoutSkill([skill], skill) == [] + WithoutSkill([], skill);
  }

  /** The notification a handler shows, if any. */
  datatype Toast =
    | NoToast
    | AlreadyTeaching(skill: string)  // info: "<skill> is already in your teaching skills"
    | EnterSkillName                  // error: "Please enter a skill name."
    | SelectAtLeastOne                // error: "Please select at least one skill you can teach"

  /** The step's state: the wizard's `formData.skillsOffered` and the step's `manualSkill` input. */
  class SkillsStep {
    var skillsOffered: seq<string>
    var manualSkill: string

    /** The step opens on the wizard's current list with an empty input box. */
    constructor (skills: seq<string>)
      ensures skillsOffered == skills && manualSkill == ""
    {
      skillsOffered := skills;
      manualSkill := "";
    }

    /** The input box's onChange. */
    method SetManualSkill(text: string)
      modifies this
      ensures manualSkill == text && skillsOffered == old(skillsOffered)
    {
      manualSkill := text;
    }

    /** addSkill: append the skill unless it is listed, in which case only an info toast is shown. */
    method AddSkill(skillName: string) returns (toast: Toast)
      modifies this
      ensures skillsOffered == WithSkill(old(skillsOffered), skillName)
      ensures manualSkill == old(manualSkill)
      ensures NoDuplicates(old(skillsOffered)) ==> NoDuplicates(skillsOffered)
      ensures toast == if skillName in old(skillsOffered) then AlreadyTeaching(skillName) else NoToast
    {
      if skillName in skillsOffered {
        return AlreadyTeaching(skillName);
      }
      skillsOffered := skillsOffered + [skillName];
      return NoToast;
    }

    /**
     * addManualSkill: add the trimmed input and clear the box (also when the
     * skill was already listed); a blank input changes nothing and shows an error.
     */
    method AddManualSkill() returns (toast: Toast)
      modifies this
      ensures Trim(old(manualSkill)) != "" ==>
        skillsOffered == WithSkill(old(skillsOffered), Trim(old(manualSkill))) && manualSkill == "" &&
        toast == if Trim(old(manualSkill)) in old(skillsOffered) then AlreadyTeaching(Trim(old(manualSkill))) else NoToast
      ensures Trim(old(manualSkill)) == "" ==>
        skillsOffered == old(skillsOffered) && manualSkill == old(manualSkill) && toast == EnterSkillName
      ensures NoDuplicates(old(skillsOffered)) ==> NoDuplicates(skillsOffered)
    {
      var trimmedSkill := Trim(manualSkill);
      if trimmedSkill != "" {
        toast := AddSkill(trimmedSkill);
        manualSkill := "";
      } else {
        toast := EnterSkillName;
      }
    }

    /** removeSkill: drop every occurrence of the skill. */
    method RemoveSkill(skillName: string)
      modifies this
      ensures skillsOffered == WithoutSkill(old(skillsOffered), skillName)
      ensures manualSkill == old(manualSkill)
      ensures NoDuplicates(old(skillsOffered)) ==> NoDuplicates(skillsOffered)
    {
      WithoutSkillNoDuplicates(skillsOffered, skillName);
      skillsOffered := WithoutSkill(skillsOffered, skillName);
    }

    /** handleNext: move on exactly when at least one skill is listed; otherwise show an error. */
    method HandleNext() returns (advance: bool, toast: Toast)
      ensures advance <==> skillsOffered != []
      ensures toast == if advance then NoToast else SelectAtLeastOne
    {
      if |skillsOffered| == 0 {
        return false, SelectAtLeastOne;
      }
      return true, NoToast;
    }
  }
}
