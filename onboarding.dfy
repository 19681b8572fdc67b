/**
 * The onboarding form (OnboardingView.swift): the Continue button is enabled
 * only for a valid form, and pressing it stores a default major, an empty
 * schedule and a student built from the trimmed fields, then shows the app.
 */
module Onboarding {
  import opened Text

  /** The major every new profile gets. */
  datatype Major = Major(name: string, requiredCourses: set<string>, creditRequired: int)

  /** A new, empty `Schedule()`. */
  datatype Schedule = EmptySchedule

  datatype Student = Student(firstName: string, lastName: string, email: string, major: Major, schedule: Schedule)

  const DefaultMajor := Major("Computer Science", {"CIS120", "CIS121"}, 32)

  lemma {:induction false} TrimStartKeeps(s: string, c: char)
    requires c in s && !IsWhitespace(c)
    ensures c in TrimStart(s)
    decreases |s|
  {
    if IsWhitespace(s[0]) {
      assert c in s[1..] by {
        var i :| 0 <= i < |s| && s[i] == c;
        assert s[1..][i - 1] == c;
      }
      TrimStartKeeps(s[1..], c);
    }
  }

  lemma {:induction false} TrimEndKeeps(s: string, c: char)
    requires c in s && !IsWhitespace(c)
    ensures c in TrimEnd(s)
    decreases |s|
  {
    if IsWhitespace(s[|s| - 1]) {
      assert c in s[..|s| - 1] by {
        var i :| 0 <= i < |s| && s[i] == c;
        assert s[..|s| - 1][i] == c;
      }
      TrimEndKeeps(s[..|s| - 1], c);
    }
  }

  /** A character that is not whitespace survives trimming. */
  lemma TrimKeeps(s: string, c: char)
    requires c in s && !IsWhitespace(c)
    ensures c in Trim(s)
  {
    TrimStartKeeps(s, c);
    TrimEndKeeps(TrimStart(s), c);
    assert Trim(s) == TrimEnd(TrimStart(s));
  }

  /** `contains("@")` on a one-character needle is membership. */
  /** A non-whitespace character is in the trimmed text exactly when it is in the text. */
  lemma TrimKeepsExactly(s: string, c: char)
    requires !IsWhitespace(c)
    ensures c in Trim(s) <==> c in s
  {
    if c in s {
      TrimKeeps(s, c);
    }
    if c in Trim(s) {
      var t := Trim(s);
      var i :| OccursAt(s, i, t);
      var j :| 0 <= j < |t| && t[j] == c;
      assert s[i + j] == t[j];
    }
  }

  lemma ContainsAt(s: string)
    ensures Contains(s, "@") <==> '@' in s
  {
    if '@' in s {
      var i :| 0 <= i < |s| && s[i] == '@';
      assert OccursAt(s, i, "@");
    }
    if Contains(s, "@") {
      var i :| 0 <= i <= |s| - 1 && OccursAt(s, i, "@");
      assert s[i..i + 1][0] == s[i];
    }
  }

  /**
   * `isFormValid`.  The trimmed email is non-empty whenever the email holds
   * an `@`, so validity comes down to: both names hold a non-whitespace
   * character and the email holds an `@`.
   */
  function IsFormValid(firstName: string, lastName: string, email: string): (valid: bool)
    ensures valid <==> !AllWhitespace(firstName) && !AllWhitespace(lastName) && '@' in email
  {
    TrimEmptyIffBlank(firstName);
    TrimEmptyIffBlank(lastName);
    ContainsAt(email);
    assert '@' in email ==> Trim(email) != [] by {
      if '@' in email {
        TrimKeeps(email, '@');
      }
    }
    Trim(firstName) != [] && Trim(lastName) != [] && Trim(email) != [] && Contains(email, "@")
  }

  /** A field of nothing but whitespace makes the form invalid, whatever the others hold. */
  lemma BlankFieldInvalid(firstName: string, lastName: string, email: string)
    requires AllWhitespace(firstName) || AllWhitespace(lastName) || AllWhitespace(email)
    ensures !IsFormValid(firstName, lastName, email)
  {
  }

  /** The student `createStudentProfile` builds from the form. */
  function NewStudent(firstName: string, lastName: string, email: string): (r: Student)
    ensures r.firstName == [] <==> AllWhitespace(firstName)
    ensures r.lastName == [] <==> AllWhitespace(lastName)
    ensures r.email == [] <==> AllWhitespace(email)
    ensures '@' in r.email <==> '@' in email
    ensures r.major == DefaultMajor && r.schedule == EmptySchedule
  {
    TrimEmptyIffBlank(firstName);
    TrimEmptyIffBlank(lastName);
    TrimEmptyIffBlank(email);
    TrimKeepsExactly(email, '@');
    Student(Trim(firstName), Trim(lastName), Trim(email), DefaultMajor, EmptySchedule)
  }

  /** Non-empty, with no whitespace at either end. */
  predicate Tidy(t: string)
  {
    t != [] && !IsWhitespace(t[0]) && !IsWhitespace(t[|t| - 1])
  }

  /** A field with a non-whitespace character trims to a tidy string. */
  lemma TrimmedField(x: string)
    requires !AllWhitespace(x)
    ensures Tidy(Trim(x))
  {
    TrimEmptyIffBlank(x);
  }

  /** From a valid form the stored names are tidy, and the email keeps its `@`. */
  lemma NewStudentOfValidForm(firstName: string, lastName: string, email: string)
    requires IsFormValid(firstName, lastName, email)
    ensures var s := NewStudent(firstName, lastName, email);
      Tidy(s.firstName) && Tidy(s.lastName) && '@' in s.email
  {
    TrimmedField(firstName);
    TrimmedField(lastName);
    TrimKeeps(email, '@');
  }

  /** The records the view inserts into its model context. */
  class ProfileStore {
    var majors: seq<Major>
    var schedules: seq<Schedule>
    var students: seq<Student>

    constructor ()
      ensures majors == [] && schedules == [] && students == []
    {
      majors, schedules, students := [], [], [];
    }
  }

  /** The view's state: the three text fields and whether the main app is showing. */
  class OnboardingView {
    var firstName: string
    var lastName: string
    var email: string
    var showingMainApp: bool

    constructor ()
      ensures firstName == [] && lastName == [] && email == [] && !showingMainApp
    {
      firstName, lastName, email := [], [], [];
      showingMainApp := false;
    }

    /** `.disabled(!isFormValid)` on the Continue button. */
    function ContinueDisabled(): (r: bool)
      reads this
      ensures r <==> AllWhitespace(firstName) || AllWhitespace(lastName) || '@' !in email
    {
      !IsFormValid(firstName, lastName, email)
    }

    /** `createStudentProfile`: insert the major, the schedule and the student, then show the app. */
    method CreateStudentProfile(store: ProfileStore)
      modifies this, store
      ensures store.majors == old(store.majors) + [DefaultMajor]
      ensures store.schedules == old(store.schedules) + [EmptySchedule]
      ensures store.students == old(store.students) + [NewStudent(old(firstName), old(lastName), old(email))]
      ensures showingMainApp && unchanged(`firstName, `lastName, `email)
    {
      store.majors := store.majors + [DefaultMajor];
      store.schedules := store.schedules + [EmptySchedule];
      store.students := store.students + [NewStudent(firstName, lastName, email)];
      showingMainApp := true;
    }

    /** Tapping Continue: a disabled button does nothing; an enabled one creates the profile. */
    method TapContinue(store: ProfileStore)
      modifies this, store
      ensures old(ContinueDisabled()) ==> unchanged(this, store)
      ensures !old(ContinueDisabled()) ==>
        && store.students == old(store.students) + [NewStudent(old(firstName), old(lastName), old(email))]
        && store.majors == old(store.majors) + [DefaultMajor]
        && store.schedules == old(store.schedules) + [EmptySchedule]
        && showingMainApp
      ensures unchanged(`firstName, `lastName, `email)
    {
      if !ContinueDisabled() {
        CreateStudentProfile(store);
      }
    }
  }
}
