/** The registration validators: the password-strength rule and the role
    whitelist a new account must pass. Characters are classified as ASCII. */
module UserSchemas {
  import opened Common

  /** Python's `string.punctuation`: the 32 ASCII punctuation characters. */
  const Punctuation: string := "!\"#$%&'()*+,-./:;<=>?@[\\]^_`{|}~"

  /** The roles a registration may ask for. */
  const Roles: seq<string> := ["user", "admin", "sale", "hr"]

  const PasswordRule: string :=
    "Password must have at least 8 characters | at least 1 uppercase letters | 1 digits | 1 punctuation"

  const RoleRule: string := "Role must be either user or admin"

  predicate IsDigit(c: char)
  {
    '0' <= c <= '9'
  }

  predicate IsUpper(c: char)
  {
    'A' <= c <= 'Z'
  }

  /** Membership in `Punctuation`, by its four ASCII ranges. */
  predicate IsPunctuation(c: char)
  {
    || '!' <= c <= '/'
    || ':' <= c <= '@'
    || '[' <= c <= '`'
    || '{' <= c <= '~'
  }

  lemma PunctuationRanges(c: char)
    ensures IsPunctuation(c) <==> c in Punctuation
  {
    if '!' <= c <= '/' {
      FirstRange(c);
    } else if ':' <= c <= '@' {
      SecondRange(c);
    } else if '[' <= c <= '`' {
      ThirdRange(c);
    } else if '{' <= c <= '~' {
      FourthRange(c);
    }
  }

  lemma FirstRange(c: char)
    requires '!' <= c <= '/'
    ensures c in Punctuation
  {
    assert Punctuation[c as int - '!' as int] == c;
  }

  lemma SecondRange(c: char)
    requires ':' <= c <= '@'
    ensures c in Punctuation
  {
    assert Punctuation[c as int - ':' as int + 15] == c;
  }

  lemma ThirdRange(c: char)
    requires '[' <= c <= '`'
    ensures c in Punctuation
  {
    assert Punctuation[c as int - '[' as int + 22] == c;
  }

  lemma FourthRange(c: char)
    requires '{' <= c <= '~'
    ensures c in Punctuation
  {
    assert Punctuation[c as int - '{' as int + 28] == c;
  }

  /** `any(x.isdigit() for x in value)` */
  function AnyDigit(s: string): (b: bool)
    ensures b <==> exists i | 0 <= i < |s| :: IsDigit(s[i])
  {
    if s == [] then false
    else if IsDigit(s[0]) then true
    else
      var rest := AnyDigit(s[1..]);
      assert forall i | 1 <= i < |s| :: s[i] == s[1..][i - 1];
      rest
  }

  /** `any(x.isupper() for x in value)` */
  function AnyUpper(s: string): (b: bool)
    ensures b <==> exists i | 0 <= i < |s| :: IsUpper(s[i])
  {
    if s == [] then false
    else if IsUpper(s[0]) then true
    else
      var rest := AnyUpper(s[1..]);
      assert forall i | 1 <= i < |s| :: s[i] == s[1..][i - 1];
      rest
  }

  /** `any(x in punctuation for x in value)` */
  function AnyPunctuation(s: string): (b: bool)
    ensures b <==> exists i | 0 <= i < |s| :: IsPunctuation(s[i])
  {
    if s == [] then false
    else if IsPunctuation(s[0]) then true
    else
      var rest := AnyPunctuation(s[1..]);
      assert forall i | 1 <= i < |s| :: s[i] == s[1..][i - 1];
      rest
  }

  /** The password validator: a password is accepted, and handed back as
      it is, exactly when it has at least eight characters, a digit, an
      uppercase letter and a punctuation character. */
  function PasswordValidator(value: string): (r: Result<string, string>)
    ensures r.Ok? <==> && |value| >= 8
                       && (exists i | 0 <= i < |value| :: IsDigit(value[i]))
                       && (exists i | 0 <= i < |value| :: IsUpper(value[i]))
                       && (exists i | 0 <= i < |value| :: IsPunctuation(value[i]))
    ensures r.Ok? ==> r.value == value
    ensures r.Err? ==> r.error == PasswordRule
  {
    var hasDigit := AnyDigit(value);
    var hasUpper := AnyUpper(value);
    var hasPunctuation := AnyPunctuation(value);
    if |value| >= 8 && hasDigit && hasUpper && hasPunctuation then Ok(value)
    else Err(PasswordRule)
  }

  /** The role validator: one of the four roles, handed back as it is. */
  function RoleValidator(value: string): (r: Result<string, string>)
    ensures r.Ok? <==> value == "user" || value == "admin" || value == "sale" || value == "hr"
    ensures r.Ok? ==> r.value == value
    ensures r.Err? ==> r.error == RoleRule
  {
    if value !in Roles then Err(RoleRule) else Ok(value)
  }

  /** Exactly eight characters meet the length condition. */
  lemma EightCharactersSuffice()
    ensures PasswordValidator("Pass0rd!") == Ok("Pass0rd!")
  {
    var p := "Pass0rd!";
    assert IsUpper(p[0]) && IsDigit(p[4]) && IsPunctuation(p[7]);
  }

  /** Ten characters with a digit and an uppercase letter but no
      punctuation are refused. */
  lemma NoPunctuationRejected()
    ensures PasswordValidator("Password12").Err?
  {
    var p := "Password12";
    assert forall i | 0 <= i < |p| :: '0' <= p[i] <= '9' || 'A' <= p[i] <= 'Z' || 'a' <= p[i] <= 'z';
  }

  /** Lengthening an accepted password keeps it accepted. */
  lemma AcceptedStaysAccepted(value: string, more: string)
    requires PasswordValidator(value).Ok?
    ensures PasswordValidator(value + more).Ok?
  {
    var d :| 0 <= d < |value| && IsDigit(value[d]);
    var u :| 0 <= u < |value| && IsUpper(value[u]);
    var p :| 0 <= p < |value| && IsPunctuation(value[p]);
    assert (value + more)[d] == value[d] && (value + more)[u] == value[u] && (value + more)[p] == value[p];
  }
}
