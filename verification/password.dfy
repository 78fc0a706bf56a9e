/** The generated password validator: five requirements checked in a fixed
    order, and the message of the first one that fails (or the success
    message) returned. */
module Password {

  /** The character classes the validator searches for, each an ASCII range
      or a fixed set, exactly as its regular expressions spell them. */
  datatype CharClass = Upper | Lower | Digit | Special

  /** One requirement on a password. */
  datatype Rule = MinLength | Needs(cls: CharClass)

  const MinimumLength: nat := 8

  /** The order in which the requirements are checked. */
  const RuleOrder: seq<Rule> := [MinLength, Needs(Upper), Needs(Lower), Needs(Digit), Needs(Special)]

  /** The message returned when every requirement holds. */
  const Valid := "Password is valid."

  predicate InClass(c: char, cls: CharClass)
  {
    match cls
    case Upper => 'A' <= c <= 'Z'
    case Lower => 'a' <= c <= 'z'
    case Digit => '0' <= c <= '9'
    case Special => c == '_' || c == '@' || c == '$'
  }

  /** Some character of `p` lies in `cls`. */
  ghost predicate Present(p: string, cls: CharClass)
  {
    exists i :: 0 <= i < |p| && InClass(p[i], cls)
  }

  /** What a requirement means for a password. */
  ghost predicate Satisfies(p: string, rule: Rule)
  {
    match rule
    case MinLength => |p| >= MinimumLength
    case Needs(cls) => Present(p, cls)
  }

  /** Requirement number `k` is the first one in check order that `p` fails. */
  ghost predicate FirstFailing(p: string, k: nat)
    requires k < |RuleOrder|
  {
    && !Satisfies(p, RuleOrder[k])
    && forall j :: 0 <= j < k ==> Satisfies(p, RuleOrder[j])
  }

  /** The message reported when a requirement fails. */
  function Message(rule: Rule): (m: string)
    ensures m != Valid
  {
    match rule
    case MinLength => "Password should be at least 8 characters long."
    case Needs(Upper) => "Password should contain at least one uppercase letter."
    case Needs(Lower) => "Password should contain at least one lowercase letter."
    case Needs(Digit) => "Password should contain at least one number."
    case Needs(Special) => "Password should contain at least one special character (_@$)."
  }

  const TooShort := Message(MinLength)
  const NoUpper := Message(Needs(Upper))
  const NoLower := Message(Needs(Lower))
  const NoDigit := Message(Needs(Digit))
  const NoSpecial := Message(Needs(Special))

  /** Every string the validator can return. */
  const Messages: set<string> := {TooShort, NoUpper, NoLower, NoDigit, NoSpecial, Valid}

  /** The six messages are pairwise different, so the message identifies the
      requirement that failed. */
  lemma MessagesDistinct()
    ensures forall r1, r2 :: Message(r1) == Message(r2) ==> r1 == r2
    ensures forall r :: Message(r) != Valid
  {
  }

  /** A regular-expression search for one character class: true when some
      character of `p` lies in `cls`. */
  function Search(p: string, cls: CharClass): (found: bool)
    ensures found <==> Present(p, cls)
  {
    if |p| == 0 then false
    else if InClass(p[0], cls) then true
    else
      var found := Search(p[1..], cls);
      assert forall i :: 1 <= i < |p| ==> p[i] == p[1..][i - 1];
      found
  }

  /** The validator: the message of the first failing requirement, or the
      success message when all five hold. */
  function ValidatePassword(p: string): (msg: string)
    ensures msg in Messages
    ensures |p| < MinimumLength ==> msg == TooShort
    ensures msg == Valid <==> forall k :: 0 <= k < |RuleOrder| ==> Satisfies(p, RuleOrder[k])
    ensures forall k :: 0 <= k < |RuleOrder| ==> (msg == Message(RuleOrder[k]) <==> FirstFailing(p, k))
  {
    MessagesDistinct();
    CheckOrder(p);
    if |p| < MinimumLength then TooShort
    else if !Search(p, Upper) then NoUpper
    else if !Search(p, Lower) then NoLower
    else if !Search(p, Digit) then NoDigit
    else if !Search(p, Special) then NoSpecial
    else Valid
  }

  /** The requirements in check order, spelled out by position. */
  lemma CheckOrder(p: string)
    ensures Satisfies(p, RuleOrder[0]) <==> |p| >= MinimumLength
    ensures Satisfies(p, RuleOrder[1]) <==> Search(p, Upper)
    ensures Satisfies(p, RuleOrder[2]) <==> Search(p, Lower)
    ensures Satisfies(p, RuleOrder[3]) <==> Search(p, Digit)
    ensures Satisfies(p, RuleOrder[4]) <==> Search(p, Special)
    ensures RuleOrder[0] == MinLength && RuleOrder[1] == Needs(Upper)
    ensures RuleOrder[2] == Needs(Lower) && RuleOrder[3] == Needs(Digit)
    ensures RuleOrder[4] == Needs(Special)
  {
  }

  /** The outcome depends on the password only through its length being at
      least eight and the presence of each character class. */
  lemma PresenceDecides(p: string, q: string)
    requires |p| >= MinimumLength <==> |q| >= MinimumLength
    requires forall cls :: Search(p, cls) == Search(q, cls)
    ensures ValidatePassword(p) == ValidatePassword(q)
  {
  }

  /** Inserting a character outside every class (a space, say) into a password
      that is already long enough never changes the outcome. */
  lemma NeutralCharacter(p: string, i: nat, c: char)
    requires forall cls :: !InClass(c, cls)
    requires |p| >= MinimumLength
    requires i <= |p|
    ensures ValidatePassword(p[..i] + [c] + p[i..]) == ValidatePassword(p)
  {
    var q := p[..i] + [c] + p[i..];
    forall cls
      ensures Search(q, cls) == Search(p, cls)
    {
      if Search(p, cls) {
        var j :| 0 <= j < |p| && InClass(p[j], cls);
        if j < i {
          assert q[j] == p[j];
        } else {
          assert q[j + 1] == p[j];
        }
      }
      if Search(q, cls) {
        var j :| 0 <= j < |q| && InClass(q[j], cls);
        if j < i {
          assert p[j] == q[j];
        } else if j == i {
          assert q[j] == c;
        } else {
          assert p[j - 1] == q[j];
        }
      }
    }
    PresenceDecides(q, p);
  }

  /** The unit tests' valid passwords, one of them with a space. */
  lemma AcceptedExamples()
    ensures ValidatePassword("Password1$") == Valid
    ensures ValidatePassword("Password 1$") == Valid
  {
    var valid := "Password1$";
    assert InClass(valid[0], Upper) && InClass(valid[1], Lower);
    assert InClass(valid[8], Digit) && InClass(valid[9], Special);
    var spaced := "Password 1$";
    assert InClass(spaced[0], Upper) && InClass(spaced[1], Lower);
    assert InClass(spaced[9], Digit) && InClass(spaced[10], Special);
  }

  /** The unit tests' passwords that are too short, the empty one included. */
  lemma ShortExamples()
    ensures ValidatePassword("Pass1$") == TooShort
    ensures ValidatePassword("") == TooShort
  {
  }

  /** The unit tests' password without an upper-case letter. */
  lemma NoUpperExample()
    ensures ValidatePassword("password1$") == NoUpper
  {
    var p := "password1$";
    assert forall i :: 0 <= i < |p| ==> !InClass(p[i], Upper);
  }

  /** The unit tests' password without a lower-case letter. */
  lemma NoLowerExample()
    ensures ValidatePassword("PASSWORD1$") == NoLower
  {
    var p := "PASSWORD1$";
    assert InClass(p[0], Upper);
    assert forall i :: 0 <= i < |p| ==> !InClass(p[i], Lower);
  }

  /** The unit tests' password without a digit. */
  lemma NoDigitExample()
    ensures ValidatePassword("Password$") == NoDigit
  {
    var p := "Password$";
    assert InClass(p[0], Upper) && InClass(p[1], Lower);
    assert forall i :: 0 <= i < |p| ==> !InClass(p[i], Digit);
  }

  /** The unit tests' password without a special character. */
  lemma NoSpecialExample()
    ensures ValidatePassword("Password1") == NoSpecial
  {
    var p := "Password1";
    assert InClass(p[0], Upper) && InClass(p[1], Lower) && InClass(p[8], Digit);
    assert forall i :: 0 <= i < |p| ==> !InClass(p[i], Special);
  }
}
