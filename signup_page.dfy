/** The signup form (doomwear/src/pages/SignupPage.tsx): the password
    checklist shown under the password input, the form schema with its
    confirm-password refinement, and how the schema relates to the server's
    own signup validators. */
module SignupPage {
  import opened Common
  import AuthRoutes

  /** The four checklist entries, in display order. */
  datatype Requirement = Length | Lowercase | Uppercase | Number

  const Requirements: seq<Requirement> := [Length, Lowercase, Uppercase, Number]

  /** The minimum password length the checklist label and the schema name. */
  const MinPassword: nat := 8

  predicate IsLower(c: char)
  {
    'a' <= c <= 'z'
  }

  predicate IsUpper(c: char)
  {
    'A' <= c <= 'Z'
  }

  /** `/[a-z]/.test(p)` */
  predicate HasLower(p: string)
  {
    exists i :: 0 <= i < |p| && IsLower(p[i])
  }

  /** `/[A-Z]/.test(p)` */
  predicate HasUpper(p: string)
  {
    exists i :: 0 <= i < |p| && IsUpper(p[i])
  }

  /** `/[0-9]/.test(p)` */
  predicate HasDigit(p: string)
  {
    exists i :: 0 <= i < |p| && IsDigit(p[i])
  }

  predicate NoLineBreak(s: string)
  {
    forall j :: 0 <= j < |s| ==> !IsLineTerminator(s[j])
  }

  /** Eight characters from position `i` on, none of them a line terminator
      (which `.` does not match). */
  predicate RunFrom(p: string, i: int)
  {
    0 <= i && i + MinPassword <= |p| && NoLineBreak(p[i..i + MinPassword])
  }

  /** `/.{8,}/.test(p)`: such a run starts somewhere in `p`. */
  predicate HasLongRun(p: string)
  {
    exists i :: 0 <= i < |p| && RunFrom(p, i)
  }

  /** `checkPasswordRequirement` with the regular expressions as written. */
  predicate RequirementMetAsWritten(r: Requirement, p: string)
  {
    match r
    case Length => HasLongRun(p)
    case Lowercase => HasLower(p)
    case Uppercase => HasUpper(p)
    case Number => HasDigit(p)
  }

  /** The checklist entry as its label states it: the length entry counts
      every character. */
  predicate RequirementMet(r: Requirement, p: string)
  {
    match r
    case Length => |p| >= MinPassword
    case Lowercase => HasLower(p)
    case Uppercase => HasUpper(p)
    case Number => HasDigit(p)
  }

  predicate ChecklistAsWritten(p: string)
  {
    forall k :: 0 <= k < |Requirements| ==> RequirementMetAsWritten(Requirements[k], p)
  }

  predicate Checklist(p: string)
  {
    forall k :: 0 <= k < |Requirements| ==> RequirementMet(Requirements[k], p)
  }

  /** The schema's password rules: `.min(8)` and the three classes. */
  predicate PasswordRules(p: string)
  {
    |p| >= MinPassword && HasLower(p) && HasUpper(p) && HasDigit(p)
  }

  /** Every entry of the checklist as written being ticked means the schema
      accepts the password: a run of eight characters needs eight. */
  lemma ChecklistAsWrittenImpliesRules(p: string)
    requires ChecklistAsWritten(p)
    ensures PasswordRules(p)
  {
    assert RequirementMetAsWritten(Requirements[0], p);
    assert RequirementMetAsWritten(Requirements[1], p);
    assert RequirementMetAsWritten(Requirements[2], p);
    assert RequirementMetAsWritten(Requirements[3], p);
  }

  /** A nine-character password with a line separator in eighth place. */
  const SeparatedPassword: string := "Abcdefg\U{2028}1"

  /** The schema accepts the password, while the checklist as written leaves
      "At least 8 characters" unticked: no eight characters in a row avoid
      the separator. */
  lemma ChecklistMissesSeparatedPassword()
    ensures PasswordRules(SeparatedPassword)
    ensures !RequirementMetAsWritten(Length, SeparatedPassword)
    ensures !ChecklistAsWritten(SeparatedPassword)
  {
    var p := SeparatedPassword;
    assert IsLower(p[1]) && IsUpper(p[0]) && IsDigit(p[8]);
    forall i
      ensures !RunFrom(p, i)
    {
      if 0 <= i && i + MinPassword <= |p| {
        assert p[i..i + MinPassword][7 - i] == p[7];
      }
    }
    assert !RequirementMetAsWritten(Requirements[0], p);
  }

  /** With the length entry counting characters, the checklist is all
      ticked exactly when the schema accepts the password. */
  lemma ChecklistMatchesRules(p: string)
    ensures Checklist(p) <==> PasswordRules(p)
  {
    if PasswordRules(p) {
      forall k | 0 <= k < |Requirements|
        ensures RequirementMet(Requirements[k], p)
      {
      }
    } else {
      if |p| < MinPassword {
        assert !RequirementMet(Requirements[0], p);
      } else if !HasLower(p) {
        assert !RequirementMet(Requirements[1], p);
      } else if !HasUpper(p) {
        assert !RequirementMet(Requirements[2], p);
      } else {
        assert !RequirementMet(Requirements[3], p);
      }
    }
  }

  datatype SignupValues = SignupValues(name: string, email: string, password: string, confirmPassword: string)

  datatype SignupField = NameField | EmailField | PasswordField | ConfirmPasswordField

  /** The fields `formSchema` reports. The email rule is the library's and
      stays abstract; a mismatched confirmation is reported on the
      confirmation field, whatever else fails. */
  function SignupFormErrors(v: SignupValues, isEmail: string -> bool): (errors: set<SignupField>)
    ensures NameField in errors <==> |v.name| < 2
    ensures EmailField in errors <==> !isEmail(v.email)
    ensures PasswordField in errors <==> !PasswordRules(v.password)
    ensures ConfirmPasswordField in errors <==> v.password != v.confirmPassword
  {
    (if |v.name| >= 2 then {} else {NameField})
    + (if isEmail(v.email) then {} else {EmailField})
    + (if PasswordRules(v.password) then {} else {PasswordField})
    + (if v.password == v.confirmPassword then {} else {ConfirmPasswordField})
  }

  /** The request `signup` posts once the form is accepted. */
  function SignupRequestOf(v: SignupValues): (req: AuthRoutes.SignupRequest)
    ensures req.name == v.name && req.email == v.email && req.password == v.password
  {
    AuthRoutes.SignupRequest(v.name, v.email, v.password)
  }

  /** A password the form accepts also passes the server's length rule. The
      two sides check emails with different libraries (the form's schema
      and the route's validator); an email the form accepts passes the
      route's check whenever every address the first accepts the second
      accepts too. */
  lemma AcceptedFormPassesServerRules(v: SignupValues, formEmail: string -> bool, routeEmail: string -> bool)
    requires SignupFormErrors(v, formEmail) == {}
    ensures AuthRoutes.PasswordField !in AuthRoutes.SignupErrors(SignupRequestOf(v), routeEmail)
    ensures (forall s :: formEmail(s) ==> routeEmail(s)) ==>
              AuthRoutes.EmailField !in AuthRoutes.SignupErrors(SignupRequestOf(v), routeEmail)
  {
    assert PasswordField !in SignupFormErrors(v, formEmail);
    assert EmailField !in SignupFormErrors(v, formEmail);
  }

  /** A name of two blanks passes the form's length rule but not the
      server's, which trims it to nothing first. */
  lemma BlankNameReachesServer(v: SignupValues, isEmail: string -> bool)
    requires v.name == "  "
    ensures NameField !in SignupFormErrors(v, isEmail)
    ensures AuthRoutes.NameField in AuthRoutes.SignupErrors(SignupRequestOf(v), isEmail)
  {
    assert TrimStart("  ") == TrimStart(" ") == [];
  }
}
