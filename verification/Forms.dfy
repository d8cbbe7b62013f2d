/** Parsed HTML forms: reading and setting fields, and telling the credential form from the
    forms that merely carry an identity assertion along. */
module Forms {
  import opened Options

  datatype Field = Field(name: string, value: string)

  /** `target` is the action resolved against the page's address, if it resolves. */
  datatype Form = Form(id: string, action: string, target: Option<string>, fields: seq<Field>)

  // -------------------------------------------------------------------- strings

  function Lower(c: char): char {
    if 'A' <= c <= 'Z' then (c as int + 32) as char else c
  }

  function ToLower(s: string): string { seq(|s|, i requires 0 <= i < |s| => Lower(s[i])) }

  predicate EqualFold(a: string, b: string) { ToLower(a) == ToLower(b) }

  predicate OccursAt(s: string, part: string, i: int) { 0 <= i <= |s| - |part| && s[i..i + |part|] == part }

  predicate Contains(s: string, part: string) {
    exists i | 0 <= i <= |s| :: OccursAt(s, part, i)
  }

  /** Two letters that differ only in case, or one character twice. */
  predicate SameLetter(a: char, b: char) {
    a == b || ('A' <= a <= 'Z' && b as int == a as int + 32) || ('A' <= b <= 'Z' && a as int == b as int + 32)
  }

  /** Folding ignores exactly the case of letters. */
  lemma EqualFoldIgnoresCase(a: string, b: string)
    ensures EqualFold(a, b) <==> |a| == |b| && forall i :: 0 <= i < |a| ==> SameLetter(a[i], b[i])
  {
    assert EqualFold(a, b) ==> |ToLower(a)| == |ToLower(b)|;
    if |a| == |b| {
      assert forall i :: 0 <= i < |a| ==> (Lower(a[i]) == Lower(b[i]) <==> SameLetter(a[i], b[i]));
      assert forall i :: 0 <= i < |a| ==> ToLower(a)[i] == Lower(a[i]) && ToLower(b)[i] == Lower(b[i]);
    }
  }

  /** A string contains exactly what it can be split around. */
  lemma ContainsIsASplit(s: string, part: string)
    ensures Contains(s, part) <==> exists before, after :: s == before + part + after
  {
    if Contains(s, part) {
      var i :| 0 <= i <= |s| && OccursAt(s, part, i);
      assert s == s[..i] + part + s[i + |part|..];
    }
    if before, after :| s == before + part + after {
      assert s[|before|..|before| + |part|] == part;
      assert OccursAt(s, part, |before|);
    }
  }

  // --------------------------------------------------------------------- fields

  predicate Has(fields: seq<Field>, name: string) { exists i | 0 <= i < |fields| :: fields[i].name == name }

  /** The first value under a name, or the empty string. */
  function Get(fields: seq<Field>, name: string): string {
    if fields == [] then "" else if fields[0].name == name then fields[0].value else Get(fields[1..], name)
  }

  /** Replaces the first field with the name, or appends one. */
  function SetField(fields: seq<Field>, name: string, value: string): seq<Field> {
    if fields == [] then [Field(name, value)]
    else if fields[0].name == name then [Field(name, value)] + fields[1..]
    else [fields[0]] + SetField(fields[1..], name, value)
  }

  /** The values actually posted: of equal names, the last one. */
  function Values(fields: seq<Field>): map<string, string> {
    if fields == [] then map[]
    else
      var last := fields[|fields| - 1];
      Values(fields[..|fields| - 1])[last.name := last.value]
  }

  function Occurrences(fields: seq<Field>, name: string): nat {
    if fields == [] then 0
    else Occurrences(fields[1..], name) + if fields[0].name == name then 1 else 0
  }

  lemma {:induction false} ValuesCons(f: Field, rest: seq<Field>)
    ensures Values([f] + rest) == map[f.name := f.value] + Values(rest)
  {
    if rest == [] {
      assert [f] + rest == [f];
      assert Values([f][..0]) == map[];
    } else {
      ValuesCons(f, rest[..|rest| - 1]);
      assert ([f] + rest)[..|[f] + rest| - 1] == [f] + rest[..|rest| - 1];
    }
  }

  lemma {:induction false} ValuesKeys(fields: seq<Field>, name: string)
    ensures name in Values(fields) <==> Has(fields, name)
    ensures Occurrences(fields, name) > 0 <==> Has(fields, name)
  {
    if fields != [] {
      assert fields == [fields[0]] + fields[1..];
      ValuesCons(fields[0], fields[1..]);
      ValuesKeys(fields[1..], name);
      if Has(fields[1..], name) {
        var i :| 0 <= i < |fields[1..]| && fields[1..][i].name == name;
        assert fields[i + 1].name == name;
      }
    }
  }

  /** Setting a field makes it present, reads back, and touches no other name. */
  lemma {:induction false} SetThenGet(fields: seq<Field>, name: string, value: string, other: string)
    ensures Get(SetField(fields, name, value), name) == value
    ensures other != name ==> Get(SetField(fields, name, value), other) == Get(fields, other)
    ensures Has(SetField(fields, name, value), other) <==> Has(fields, other) || other == name
  {
    var after := SetField(fields, name, value);
    if fields == [] {
      assert after[0].name == name;
    } else if fields[0].name == name {
      assert after[1..] == fields[1..];
      HasSplit(fields, other);
      HasSplit(after, other);
    } else {
      SetThenGet(fields[1..], name, value, other);
      assert after[1..] == SetField(fields[1..], name, value);
      HasSplit(fields, other);
      HasSplit(after, other);
    }
  }

  lemma HasSplit(fields: seq<Field>, name: string)
    requires fields != []
    ensures Has(fields, name) <==> fields[0].name == name || Has(fields[1..], name)
  {
    if Has(fields[1..], name) {
      var i :| 0 <= i < |fields[1..]| && fields[1..][i].name == name;
      assert fields[i + 1].name == name;
    }
    if i :| 0 <= i < |fields| && fields[i].name == name {
      if i > 0 { assert fields[1..][i - 1].name == name; }
    }
  }

  /** What is posted under a name after setting it: `Set` changes the first field of that
      name and the post carries the last one, so the value arrives exactly when the name
      occurred at most once or its last field already held the value. */
  lemma {:induction false} SetValueIsPosted(fields: seq<Field>, name: string, value: string)
    ensures name in Values(SetField(fields, name, value))
    ensures Values(SetField(fields, name, value))[name] == value
            <==> Occurrences(fields, name) <= 1 || (name in Values(fields) && Values(fields)[name] == value)
    ensures forall n :: n != name ==> (n in Values(SetField(fields, name, value)) <==> n in Values(fields))
                                      && (n in Values(fields) ==>
                                            Values(SetField(fields, name, value))[n] == Values(fields)[n])
  {
    if fields == [] {
      assert [Field(name, value)][..0] == [];
    } else {
      var first, rest := fields[0], fields[1..];
      assert fields == [first] + rest;
      ValuesCons(first, rest);
      ValuesKeys(rest, name);
      if first.name == name {
        ValuesCons(Field(name, value), rest);
      } else {
        ValuesCons(first, SetField(rest, name, value));
        SetValueIsPosted(rest, name, value);
      }
    }
  }

  // ------------------------------------------------------------- choosing a form

  predicate IsLoginId(f: Form) { EqualFold(f.id, "loginForm") }

  predicate HasCredentialFields(f: Form) { Has(f.fields, "Username") && Has(f.fields, "Password") }

  predicate IsBridge(f: Form) {
    && f.action != "" && !Contains(ToLower(f.action), "logout")
    && f.fields != [] && !Has(f.fields, "Username") && !Has(f.fields, "Password")
    && ((Has(f.fields, "code") && Has(f.fields, "state") && Has(f.fields, "iss"))
        || Has(f.fields, "id_token") || Has(f.fields, "SAMLResponse"))
  }

  predicate Named(f: Form, name: string) { exists i :: 0 <= i < |f.fields| && f.fields[i].name == name }

  /** A bridge carries an assertion, asks for no credentials, and never logs out, in whatever
      case its action says so. */
  lemma BridgeMeaning(f: Form)
    ensures IsBridge(f) <==>
            f.action != "" && (forall s :: EqualFold(s, "logout") ==> !Contains(f.action, s))
            && !Named(f, "Username") && !Named(f, "Password")
            && ((Named(f, "code") && Named(f, "state") && Named(f, "iss"))
                || Named(f, "id_token") || Named(f, "SAMLResponse"))
  {
    NoLogout(f.action);
  }

  lemma NoLogout(action: string)
    ensures Contains(ToLower(action), "logout") <==> exists s :: EqualFold(s, "logout") && Contains(action, s)
  {
    var lower := ToLower(action);
    if Contains(lower, "logout") {
      var i :| 0 <= i <= |lower| && OccursAt(lower, "logout", i);
      var s := action[i..i + 6];
      assert ToLower(s) == lower[i..i + 6];
      assert ToLower("logout") == "logout";
      assert OccursAt(action, s, i);
      assert EqualFold(s, "logout") && Contains(action, s);
    }
    if s :| EqualFold(s, "logout") && Contains(action, s) {
      assert ToLower("logout") == "logout";
      var i :| 0 <= i <= |action| && OccursAt(action, s, i);
      assert |s| == |ToLower(s)| == |ToLower("logout")| == 6;
      assert lower[i..i + |s|] == ToLower(action[i..i + |s|]);
      assert OccursAt(lower, "logout", i);
      assert 0 <= i <= |lower|;
    }
  }

  /** The first form satisfying a test. */
  function First(forms: seq<Form>, test: Form -> bool): (found: Option<Form>)
    ensures found.Some? ==> found.value in forms && test(found.value)
    ensures found.None? ==> forall f :: f in forms ==> !test(f)
  {
    if forms == [] then None
    else if test(forms[0]) then Some(forms[0])
    else First(forms[1..], test)
  }

  /** The i-th form passes the test and none before it does. */
  predicate IsEarliest(forms: seq<Form>, test: Form -> bool, i: int) {
    0 <= i < |forms| && test(forms[i]) && forall j :: 0 <= j < i ==> !test(forms[j])
  }

  lemma {:induction false} FirstIsEarliest(forms: seq<Form>, test: Form -> bool, i: nat)
    ensures IsEarliest(forms, test, i) ==> First(forms, test) == Some(forms[i])
    ensures First(forms, test).Some? <==> exists j :: 0 <= j < |forms| && test(forms[j])
  {
    if forms != [] && !test(forms[0]) {
      FirstIsEarliest(forms[1..], test, if i > 0 then i - 1 else 0);
      assert forall j :: 0 <= j < |forms[1..]| ==> forms[1..][j] == forms[j + 1];
      if j :| 0 <= j < |forms| && test(forms[j]) { assert test(forms[1..][j - 1]); }
    }
  }

  /** The form with the login id wins over one that only has the two fields. */
  function FindLoginForm(forms: seq<Form>): Option<Form> {
    var byId := First(forms, IsLoginId);
    if byId.Some? then byId else First(forms, HasCredentialFields)
  }

  /** It is the earliest form with the login id, in whatever case, or, where there is none, the
      earliest that asks for both credentials. */
  lemma LoginFormIsTheEarliest(forms: seq<Form>, i: nat)
    requires i < |forms|
    ensures EqualFold(forms[i].id, "loginForm") && (forall j :: 0 <= j < i ==> !EqualFold(forms[j].id, "loginForm")) ==>
              FindLoginForm(forms) == Some(forms[i])
    ensures (forall f :: f in forms ==> !EqualFold(f.id, "loginForm"))
            && Named(forms[i], "Username") && Named(forms[i], "Password")
            && (forall j :: 0 <= j < i ==> !Named(forms[j], "Username") || !Named(forms[j], "Password")) ==>
              FindLoginForm(forms) == Some(forms[i])
    ensures FindLoginForm(forms).Some? <==>
            exists f :: f in forms
              && (EqualFold(f.id, "loginForm") || (Named(f, "Username") && Named(f, "Password")))
  {
    hide EqualFold, First;
    FirstIsEarliest(forms, IsLoginId, i);
    FirstIsEarliest(forms, HasCredentialFields, i);
    assert forall f :: f in forms <==> exists j :: 0 <= j < |forms| && forms[j] == f;
  }

  function FindOIDCBridge(forms: seq<Form>): Option<Form> { First(forms, IsBridge) }

  // --------------------------------------------------------------- in-place edits

  const CAPTCHAS: seq<string> := ["captcha", "cf-turnstile-response", "h-captcha-response", "g-recaptcha-response"]

  function WithCaptchas(fields: seq<Field>, n: nat): seq<Field>
    requires n <= |CAPTCHAS|
  {
    if n == 0 then fields
    else
      var before := WithCaptchas(fields, n - 1);
      if Has(before, CAPTCHAS[n - 1]) then before else SetField(before, CAPTCHAS[n - 1], "")
  }

  /** The fields of the credential submission. */
  function Filled(fields: seq<Field>, username: string, password: string): seq<Field> {
    WithCaptchas(SetField(SetField(fields, "Username", username), "Password", password), |CAPTCHAS|)
  }

  lemma {:induction false} SetKeepsOccurrences(fields: seq<Field>, name: string, value: string, other: string)
    requires other != name
    ensures Occurrences(SetField(fields, name, value), other) == Occurrences(fields, other)
  {
    if fields != [] {
      if fields[0].name == name {
        assert ([Field(name, value)] + fields[1..])[1..] == fields[1..];
      } else {
        SetKeepsOccurrences(fields[1..], name, value, other);
        assert ([fields[0]] + SetField(fields[1..], name, value))[1..] == SetField(fields[1..], name, value);
      }
    }
  }

  lemma {:induction false} CaptchasKeepOthers(fields: seq<Field>, n: nat, name: string)
    requires n <= |CAPTCHAS| && name !in CAPTCHAS && name in Values(fields)
    ensures name in Values(WithCaptchas(fields, n)) && Values(WithCaptchas(fields, n))[name] == Values(fields)[name]
  {
    if n > 0 {
      CaptchasKeepOthers(fields, n - 1, name);
      SetValueIsPosted(WithCaptchas(fields, n - 1), CAPTCHAS[n - 1], "");
    }
  }

  /** The name arrives at the identity provider with the given value exactly when the form
      had it at most once, or already ended with it. */
  predicate Arrives(fields: seq<Field>, name: string, value: string) {
    Occurrences(fields, name) <= 1 || (name in Values(fields) && Values(fields)[name] == value)
  }

  lemma CredentialsArrive(fields: seq<Field>, username: string, password: string)
    ensures var posted := Values(Filled(fields, username, password));
            "Username" in posted && "Password" in posted
            && (posted["Username"] == username <==> Arrives(fields, "Username", username))
            && (posted["Password"] == password <==> Arrives(fields, "Password", password))
  {
    var named := SetField(fields, "Username", username);
    var both := SetField(named, "Password", password);
    SetValueIsPosted(fields, "Username", username);
    SetValueIsPosted(named, "Password", password);
    SetKeepsOccurrences(fields, "Username", username, "Password");
    CaptchasKeepOthers(both, |CAPTCHAS|, "Username");
    CaptchasKeepOthers(both, |CAPTCHAS|, "Password");
  }

  predicate IsCaptcha(name: string, n: nat)
    requires n <= |CAPTCHAS|
  {
    name in CAPTCHAS[..n]
  }

  lemma {:induction false} CaptchasFillGaps(fields: seq<Field>, n: nat, name: string)
    requires n <= |CAPTCHAS|
    ensures var posted := Values(WithCaptchas(fields, n));
            (name in posted <==> name in Values(fields) || IsCaptcha(name, n))
            && (name in posted ==> posted[name] == if name in Values(fields) then Values(fields)[name] else "")
  {
    hide Values, SetField, Has, Occurrences;
    if n > 0 {
      var before, captcha := WithCaptchas(fields, n - 1), CAPTCHAS[n - 1];
      CaptchasFillGaps(fields, n - 1, name);
      assert CAPTCHAS[..n] == CAPTCHAS[..n - 1] + [captcha];
      ValuesKeys(before, captcha);
      SetValueIsPosted(before, captcha, "");
    }
  }

  /** Besides the credentials exactly the form's own fields are posted, with their own values,
      and the four captcha fields, empty where the form had none. */
  lemma FilledPostsExactly(fields: seq<Field>, username: string, password: string, name: string)
    ensures var own, posted := Values(fields), Values(Filled(fields, username, password));
            var captchas := {"captcha", "cf-turnstile-response", "h-captcha-response", "g-recaptcha-response"};
            (name in posted <==> name in own || name in captchas + {"Username", "Password"})
            && (name in posted && name !in {"Username", "Password"} ==>
                  posted[name] == if name in own then own[name] else "")
  {
    hide Values, SetField, Occurrences;
    var named := SetField(fields, "Username", username);
    var both := SetField(named, "Password", password);
    SetValueIsPosted(fields, "Username", username);
    SetValueIsPosted(named, "Password", password);
    CaptchasFillGaps(both, |CAPTCHAS|, name);
    assert CAPTCHAS[..|CAPTCHAS|] == CAPTCHAS;
  }

  /** A form with a second field of that name keeps its own value. */
  lemma ASecondFieldWins(username: string, password: string, first: string, second: string)
    requires second != username
    ensures var posted := Values(Filled([Field("Username", first), Field("Username", second)], username, password));
            "Username" in posted && posted["Username"] != username
  {
    var fields := [Field("Username", first), Field("Username", second)];
    CredentialsArrive(fields, username, password);
    assert fields[1..] == [Field("Username", second)] && Occurrences(fields[1..], "Username") == 1;
    assert fields[..1] == [Field("Username", first)];
  }

  class FormInHand {
    var fields: seq<Field>

    constructor (form: Form)
      ensures fields == form.fields
    {
      fields := form.fields;
    }

    method Set(name: string, value: string)
      modifies this`fields
      ensures fields == SetField(old(fields), name, value)
    {
      var i := 0;
      while i < |fields|
        invariant 0 <= i <= |fields| && fields == old(fields)
        invariant SetField(fields, name, value) == fields[..i] + SetField(fields[i..], name, value)
      {
        if fields[i].name == name {
          fields := fields[i := Field(name, value)];
          assert fields == old(fields)[..i] + [Field(name, value)] + old(fields)[i + 1..];
          return;
        }
        i := i + 1;
      }
      fields := fields + [Field(name, value)];
    }

    method Fill(username: string, password: string)
      modifies this`fields
      ensures fields == Filled(old(fields), username, password)
    {
      Set("Username", username);
      Set("Password", password);
      ghost var base := fields;
      for k := 0 to |CAPTCHAS|
        invariant fields == WithCaptchas(base, k)
      {
        if !Has(fields, CAPTCHAS[k]) {
          Set(CAPTCHAS[k], "");
        }
      }
    }
  }
}
