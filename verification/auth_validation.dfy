/** The credential and refresh-token schemas (src/validation/auth.validation.ts)
    as Joi object schemas, with the password pattern given its JavaScript
    regular-expression meaning. */
module AuthValidation {
  import opened Wrappers
  import opened Text
  import opened Joi

  // ---------------------------------------------------------------------
  // The password pattern /^(?=.*[a-z])(?=.*[A-Z])(?=.*\d)/
  // ---------------------------------------------------------------------

  /** The characters JavaScript's `.` does not match (no `s` flag). */
  predicate IsLineTerminator(c: char) {
    c == '\n' || c == '\r' || c == '\U{2028}' || c == '\U{2029}'
  }

  predicate IsLower(c: char) {
    'a' <= c <= 'z'
  }

  predicate IsUpper(c: char) {
    'A' <= c <= 'Z'
  }

  /** No line terminator among the first `i` characters. */
  predicate NoLineBreakBefore(s: string, i: nat)
    requires i <= |s|
  {
    forall j :: 0 <= j < i ==> !IsLineTerminator(s[j])
  }

  /** The lookahead `(?=.*[cls])` at the start of `s`: either the class
      matches here, or `.` consumes this (non-terminator) character and the
      search goes on. */
  function LookaheadFinds(s: string, cls: char -> bool): bool {
    if |s| == 0 then false
    else cls(s[0]) || (!IsLineTerminator(s[0]) && LookaheadFinds(s[1..], cls))
  }

  /** The lookahead succeeds exactly when some character of the class comes
      before the first line terminator. */
  lemma {:induction false} LookaheadFindsMeaning(s: string, cls: char -> bool)
    ensures LookaheadFinds(s, cls) <==> exists i :: 0 <= i < |s| && NoLineBreakBefore(s, i) && cls(s[i])
  {
    if |s| > 0 && !cls(s[0]) && !IsLineTerminator(s[0]) {
      LookaheadFindsMeaning(s[1..], cls);
      if LookaheadFinds(s, cls) {
        var k :| 0 <= k < |s[1..]| && NoLineBreakBefore(s[1..], k) && cls(s[1..][k]);
        assert NoLineBreakBefore(s, k + 1) by {
          forall j | 0 <= j < k + 1 ensures !IsLineTerminator(s[j]) {
            if j > 0 { assert s[j] == s[1..][j - 1]; }
          }
        }
        assert cls(s[k + 1]);
      } else {
        forall i | 0 <= i < |s| && NoLineBreakBefore(s, i) ensures !cls(s[i]) {
          if i > 0 {
            assert NoLineBreakBefore(s[1..], i - 1) by {
              forall j | 0 <= j < i - 1 ensures !IsLineTerminator(s[1..][j]) {
                assert s[1..][j] == s[j + 1];
              }
            }
            assert s[1..][i - 1] == s[i];
          }
        }
      }
    } else if |s| > 0 && !cls(s[0]) {
      forall i | 0 <= i < |s| && NoLineBreakBefore(s, i) ensures !cls(s[i]) {
      }
    } else if |s| > 0 {
      assert NoLineBreakBefore(s, 0);
    }
  }

  /** What `PasswordRegex.test(s)` answers. */
  predicate PasswordPattern(s: string) {
    LookaheadFinds(s, IsLower) && LookaheadFinds(s, IsUpper) && LookaheadFinds(s, IsDigit)
  }

  /** On a single line the pattern means: a lower-case letter, an upper-case
      letter and a digit all occur. */
  lemma PasswordPatternOnOneLine(s: string)
    requires forall j :: 0 <= j < |s| ==> !IsLineTerminator(s[j])
    ensures PasswordPattern(s) <==>
              (exists i :: 0 <= i < |s| && IsLower(s[i]))
              && (exists i :: 0 <= i < |s| && IsUpper(s[i]))
              && (exists i :: 0 <= i < |s| && IsDigit(s[i]))
  {
    LookaheadFindsMeaning(s, IsLower);
    LookaheadFindsMeaning(s, IsUpper);
    LookaheadFindsMeaning(s, IsDigit);
    assert forall i :: 0 <= i < |s| ==> NoLineBreakBefore(s, i);
  }

  /** Because `.` stops at a line break, a digit after the first line break
      does not count: this password has all three classes and is refused. */
  lemma PatternStopsAtLineBreak()
    ensures !PasswordPattern("Abcdef\n1")
    ensures PasswordPattern("Abcde1\nx")
  {
    var s := "Abcdef\n1";
    assert !IsDigit(s[0]) && !IsDigit(s[1]) && !IsDigit(s[2]) && !IsDigit(s[3]);
    assert !IsDigit(s[4]) && !IsDigit(s[5]) && IsLineTerminator(s[6]);
    assert s[1..][1..][1..][1..][1..][1..] == "\n1";
    var t := "Abcde1\nx";
    assert IsUpper(t[0]) && IsLower(t[1]);
    assert t[1..][1..][1..][1..][1..] == "1\nx";
  }

  const PasswordRegex: RegexRule := RegexRule("^(?=.*[a-z])(?=.*[A-Z])(?=.*\\d)", PasswordPattern)

  // ---------------------------------------------------------------------
  // The schemas
  // ---------------------------------------------------------------------

  const PasswordPatternMessage: string :=
    "Password must contain at least one uppercase letter, one lowercase letter, and one number"

  const IdSpec: KeySpec :=
    KeySpec("id", Required, StringRule(Some(3), Some(255), None),
            map[StringBase := "ID must be a string",
                StringEmpty := "ID cannot be empty",
                StringMin := "ID must have at least 3 characters",
                StringMax := "ID cannot exceed 255 characters",
                AnyRequired := "ID is required"])

  const PasswordSpec: KeySpec :=
    KeySpec("password", Required, StringRule(Some(6), Some(255), Some(PasswordRegex)),
            map[StringBase := "Password must be a string",
                StringEmpty := "Password cannot be empty",
                StringMin := "Password must have at least 6 characters",
                StringMax := "Password cannot exceed 255 characters",
                StringPatternBase := PasswordPatternMessage,
                AnyRequired := "Password is required"])

  const CredentialKeys: ObjectSchema := [IdSpec, PasswordSpec]

  const RefreshTokenSpec: KeySpec :=
    KeySpec("refreshToken", Required, StringRule(None, None, None),
            map[StringBase := "Refresh token must be a string",
                StringEmpty := "Refresh token cannot be empty",
                AnyRequired := "Refresh token is required"])

  const RefreshTokenKeys: ObjectSchema := [RefreshTokenSpec]

  /** These schemas have no number keys, so string conversion never runs. */
  function NoNumeral(s: string): Option<real> {
    None
  }

  /** A login id the schema takes: a string of 3 to 255 UTF-16 units. */
  predicate IsLoginId(v: Option<Value>) {
    v.Some? && v.value.Str? && 3 <= Utf16Length(v.value.s) <= 255
  }

  /** A password the schema takes: a string of 6 to 255 UTF-16 units that
      passes the pattern. */
  predicate IsPassword(v: Option<Value>) {
    v.Some? && v.value.Str? && 6 <= Utf16Length(v.value.s) <= 255 && PasswordPattern(v.value.s)
  }

  /** `signUpSchema.validate(body, ...)`. */
  function SignUpSchema(body: Fields): (r: Validation)
    ensures r.Valid? <==> IsLoginId(Lookup(body, "id")) && IsPassword(Lookup(body, "password"))
  {
    var r := Validate(CredentialKeys, body, NoNumeral);
    assert CredentialKeys[0] == IdSpec && CredentialKeys[1] == PasswordSpec;
    assert Accepts(IdSpec, Lookup(body, "id"), NoNumeral) <==> IsLoginId(Lookup(body, "id"));
    assert Accepts(PasswordSpec, Lookup(body, "password"), NoNumeral) <==> IsPassword(Lookup(body, "password"));
    r
  }

  /** `signInSchema` is the same schema object as `signUpSchema`. */
  function SignInSchema(body: Fields): (r: Validation)
    ensures r.Valid? <==> IsLoginId(Lookup(body, "id")) && IsPassword(Lookup(body, "password"))
    ensures r == SignUpSchema(body)
  {
    SignUpSchema(body)
  }

  /** The details of the credential schema: the id's, then the password's. */
  lemma CredentialErrorsSplit(body: Fields)
    ensures CollectErrors(CredentialKeys, body, NoNumeral)
            == KeyErrors(IdSpec, body, NoNumeral) + KeyErrors(PasswordSpec, body, NoNumeral)
  {
    var ks := CredentialKeys;
    assert ks[1..] == [PasswordSpec];
    assert ks[1..][1..] == [];
    assert KeyErrors(PasswordSpec, body, NoNumeral) + [] == KeyErrors(PasswordSpec, body, NoNumeral);
  }

  /** An accepted body is cut down to exactly its id and password. */
  lemma SignUpStripsUnknownKeys(body: Fields)
    requires SignUpSchema(body).Valid?
    ensures SignUpSchema(body).value == map["id" := body["id"], "password" := body["password"]]
  {
    var ks := CredentialKeys;
    assert ks[0] == IdSpec && ks[1] == PasswordSpec;
    assert SignUpSchema(body).value == Output(ks, body, NoNumeral);
    OutputPair(ks, body, NoNumeral);
  }

  /** A missing id or password is reported as required, with its message. */
  lemma MissingCredentialReported(body: Fields, key: string)
    requires key == "id" || key == "password"
    requires key !in body
    ensures SignUpSchema(body).Invalid?
    ensures Detail([key], if key == "id" then "ID is required" else "Password is required", AnyRequired)
            in SignUpSchema(body).details
  {
    var i := if key == "id" then 0 else 1;
    KeyErrorsInResult(CredentialKeys, body, NoNumeral, i,
      Detail([key], if key == "id" then "ID is required" else "Password is required", AnyRequired));
  }

  /** An empty id is reported as empty, and the length rule is not also
      reported for it. */
  lemma EmptyIdReported(body: Fields)
    requires "id" in body && body["id"] == Str("")
    ensures SignUpSchema(body).Invalid?
    ensures Detail(["id"], "ID cannot be empty", StringEmpty) in SignUpSchema(body).details
    ensures forall d :: d in SignUpSchema(body).details && d.path == ["id"] ==> d.kind == StringEmpty
  {
    KeyErrorsInResult(CredentialKeys, body, NoNumeral, 0, Detail(["id"], "ID cannot be empty", StringEmpty));
    CredentialErrorsSplit(body);
    var pw := KeyErrors(PasswordSpec, body, NoNumeral);
    assert forall d :: d in pw ==> d.path == ["password"];
  }

  /** A non-empty password string failing the pattern draws the pattern
      message. */
  lemma PasswordPatternReported(body: Fields)
    requires "password" in body && body["password"].Str?
    requires body["password"].s != "" && !PasswordPattern(body["password"].s)
    ensures SignUpSchema(body).Invalid?
    ensures Detail(["password"], PasswordPatternMessage, StringPatternBase) in SignUpSchema(body).details
  {
    var s := body["password"].s;
    var d := Detail(["password"], PasswordPatternMessage, StringPatternBase);
    assert d == Fail(PasswordSpec, StringPatternBase, s);
    assert d in StringRuleErrors(PasswordSpec, s);
    KeyErrorsInResult(CredentialKeys, body, NoNumeral, 1, d);
  }

  /** `refreshTokenSchema.validate(body, ...)`. */
  function RefreshTokenSchema(body: Fields): (r: Validation)
    ensures r.Valid? <==> "refreshToken" in body && body["refreshToken"].Str? && body["refreshToken"].s != ""
    ensures r.Valid? ==> r.value == map["refreshToken" := body["refreshToken"]]
  {
    var r := Validate(RefreshTokenKeys, body, NoNumeral);
    OutputAt(RefreshTokenKeys, body, NoNumeral, 0);
    r
  }
}
