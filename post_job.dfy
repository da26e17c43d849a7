/** The job-posting form (src/pages/PostJob.tsx): eleven text fields, a list
    of skills kept free of blanks and duplicates, the skill being typed, and
    a submit that checks four required fields and then clears the form. */
module PostJob {
  import Seqs
  import opened Text

  /** The form's fields, as `handleInputChange` names them. */
  datatype Field =
    | Title | Company | Location | Salary | JobType | Experience
    | Description | Requirements | Benefits | ContactEmail | ContactPhone

  datatype FormData = FormData(
    title: string,
    company: string,
    location: string,
    salary: string,
    jobType: string,
    experience: string,
    description: string,
    requirements: string,
    benefits: string,
    contactEmail: string,
    contactPhone: string)
  {
    function Get(f: Field): string {
      match f
      case Title => title
      case Company => company
      case Location => location
      case Salary => salary
      case JobType => jobType
      case Experience => experience
      case Description => description
      case Requirements => requirements
      case Benefits => benefits
      case ContactEmail => contactEmail
      case ContactPhone => contactPhone
    }

    /** `{ ...prev, [f]: v }`: `f` now holds `v` and every other field is as
        it was. */
    function With(f: Field, v: string): (d: FormData)
      ensures d.Get(f) == v
      ensures forall g :: g != f ==> d.Get(g) == Get(g)
    {
      match f
      case Title => this.(title := v)
      case Company => this.(company := v)
      case Location => this.(location := v)
      case Salary => this.(salary := v)
      case JobType => this.(jobType := v)
      case Experience => this.(experience := v)
      case Description => this.(description := v)
      case Requirements => this.(requirements := v)
      case Benefits => this.(benefits := v)
      case ContactEmail => this.(contactEmail := v)
      case ContactPhone => this.(contactPhone := v)
    }
  }

  /** The form as first shown and as left by a successful submit. */
  function BlankForm(): (d: FormData)
    ensures forall f :: d.Get(f) == ""
  {
    FormData("", "", "", "", "", "", "", "", "", "", "")
  }

  /** The validation of `handleSubmit`: title, company, location and
      description must be non-empty. There is no trimming here, so a field
      holding only spaces passes. */
  predicate HasRequiredFields(d: FormData) {
    d.title != "" && d.company != "" && d.location != "" && d.description != ""
  }

  /** The required fields, as a set. */
  const RequiredFields: set<Field> := {Title, Company, Location, Description}

  /** Validation passes exactly when no required field is empty. */
  lemma HasRequiredFieldsIff(d: FormData)
    ensures HasRequiredFields(d) <==> forall f :: f in RequiredFields ==> d.Get(f) != ""
  {
    if HasRequiredFields(d) {
      forall f | f in RequiredFields
        ensures d.Get(f) != ""
      {
      }
    } else {
      assert exists f :: f in RequiredFields && d.Get(f) == "" by {
        if d.title == "" { assert d.Get(Title) == ""; }
        else if d.company == "" { assert d.Get(Company) == ""; }
        else if d.location == "" { assert d.Get(Location) == ""; }
        else { assert d.Get(Description) == ""; }
      }
    }
  }

  /** A form whose required fields hold only a space is accepted. */
  lemma WhitespaceOnlyAccepted()
    ensures HasRequiredFields(BlankForm().With(Title, " ").With(Company, " ").With(Location, " ").With(Description, " "))
  {
  }

  /** The blank form fails validation, so a second submit right after a
      successful one is rejected. */
  lemma BlankFormRejected()
    ensures !HasRequiredFields(BlankForm())
  {
  }

  /** The guard of `addSkill`: the trimmed text is non-empty and not yet in
      the list. */
  predicate CanAddSkill(skills: seq<string>, currentSkill: string) {
    Trim(currentSkill) != "" && Trim(currentSkill) !in skills
  }

  /** What `addSkill` keeps true of the list: no duplicates, and every entry
      is non-empty with no whitespace at either end (so `Trim` leaves it as
      it is, by `TrimmedIsFixed`). */
  predicate SkillsWellFormed(skills: seq<string>) {
    && Seqs.Distinct(skills)
    && forall i :: 0 <= i < |skills| ==> skills[i] != "" && IsTrimmed(skills[i])
  }

  /** Appending the trimmed text, when the guard allows it, keeps the list
      well formed. */
  lemma AddSkillKeepsWellFormed(skills: seq<string>, currentSkill: string)
    requires SkillsWellFormed(skills) && CanAddSkill(skills, currentSkill)
    ensures SkillsWellFormed(skills + [Trim(currentSkill)])
  {
    var t := Trim(currentSkill);
    var r := skills + [t];
    forall i, j | 0 <= i < j < |r|
      ensures r[i] != r[j]
    {
      if j == |skills| {
        assert r[i] == skills[i] && skills[i] in skills;
      } else {
        assert r[i] == skills[i] && r[j] == skills[j];
      }
    }
    forall i | 0 <= i < |r|
      ensures r[i] != "" && IsTrimmed(r[i])
    {
      if i < |skills| {
        assert r[i] == skills[i];
      }
    }
  }

  /** The test `filter` applies in `removeSkill`. */
  function Differs(skill: string): string -> bool {
    s => s != skill
  }

  /** The list after `removeSkill(skill)`: every other entry, in order. */
  function WithoutSkill(skills: seq<string>, skill: string): (r: seq<string>)
    ensures skill !in r
    ensures forall k :: 0 <= k < |r| ==> r[k] in skills
    ensures forall i :: 0 <= i < |skills| && skills[i] != skill ==> skills[i] in r
  {
    Seqs.Filter(skills, Differs(skill))
  }

  /** Removing a skill keeps the others in their original order. */
  lemma WithoutSkillInOrder(skills: seq<string>, skill: string)
    ensures Seqs.IsStableSelection(WithoutSkill(skills, skill), skills, Seqs.Positions(skills, Differs(skill)), Differs(skill))
  {
    Seqs.FilterSelects(skills, Differs(skill));
  }

  /** Removing a skill keeps the list well formed. */
  lemma WithoutSkillKeepsWellFormed(skills: seq<string>, skill: string)
    requires SkillsWellFormed(skills)
    ensures SkillsWellFormed(WithoutSkill(skills, skill))
  {
    Seqs.FilterDistinct(skills, Differs(skill));
    var r := WithoutSkill(skills, skill);
    forall k | 0 <= k < |r|
      ensures r[k] != "" && IsTrimmed(r[k])
    {
      var i :| 0 <= i < |skills| && skills[i] == r[k];
    }
  }

  /** Adding a fresh skill and then removing it restores the list. */
  lemma AddThenRemoveRestores(skills: seq<string>, currentSkill: string)
    requires CanAddSkill(skills, currentSkill)
    ensures WithoutSkill(skills + [Trim(currentSkill)], Trim(currentSkill)) == skills
  {
    var t := Trim(currentSkill);
    assert (skills + [t])[..|skills|] == skills;
    Seqs.FilterKeepsAll(skills, Differs(t));
  }

  /** The form's state. */
  class JobForm {
    var formData: FormData
    var skills: seq<string>
    var currentSkill: string

    ghost predicate Valid()
      reads this
    {
      SkillsWellFormed(skills)
    }

    constructor ()
      ensures Valid()
      ensures formData == BlankForm() && skills == [] && currentSkill == ""
    {
      formData := BlankForm();
      skills := [];
      currentSkill := "";
    }

    /** `handleInputChange(field, value)`. */
    method InputChange(field: Field, value: string)
      requires Valid()
      modifies this
      ensures Valid()
      ensures formData == old(formData).With(field, value)
      ensures skills == old(skills) && currentSkill == old(currentSkill)
    {
      formData := formData.With(field, value);
    }

    /** Typing in the skill box. */
    method SetCurrentSkill(value: string)
      requires Valid()
      modifies this
      ensures Valid()
      ensures currentSkill == value
      ensures formData == old(formData) && skills == old(skills)
    {
      currentSkill := value;
    }

    /** `addSkill`: append the trimmed text and clear the box when the guard
        allows it; otherwise nothing changes. */
    method AddSkill()
      requires Valid()
      modifies this
      ensures Valid()
      ensures formData == old(formData)
      ensures CanAddSkill(old(skills), old(currentSkill)) ==>
        skills == old(skills) + [Trim(old(currentSkill))] && currentSkill == ""
      ensures !CanAddSkill(old(skills), old(currentSkill)) ==>
        skills == old(skills) && currentSkill == old(currentSkill)
    {
      var t := Trim(currentSkill);
      if t != "" && t !in skills {
        AddSkillKeepsWellFormed(skills, currentSkill);
        skills := skills + [t];
        currentSkill := "";
      }
    }

    /** `removeSkill(skill)`. */
    method RemoveSkill(skill: string)
      requires Valid()
      modifies this
      ensures Valid()
      ensures skills == WithoutSkill(old(skills), skill)
      ensures formData == old(formData) && currentSkill == old(currentSkill)
    {
      WithoutSkillKeepsWellFormed(skills, skill);
      skills := WithoutSkill(skills, skill);
    }

    /** `handleSubmit`: reject when a required field is empty, leaving the
        state alone; otherwise clear every field and the skill list. The
        text in the skill box is not cleared. `accepted` tells which
        notification the page shows. */
    method Submit() returns (accepted: bool)
      requires Valid()
      modifies this
      ensures Valid()
      ensures accepted == HasRequiredFields(old(formData))
      ensures accepted ==> formData == BlankForm() && skills == []
      ensures !accepted ==> formData == old(formData) && skills == old(skills)
      ensures currentSkill == old(currentSkill)
    {
      if !HasRequiredFields(formData) {
        return false;
      }
      formData := BlankForm();
      skills := [];
      accepted := true;
    }
  }
}
