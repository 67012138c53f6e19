/** The portal login: form recognition and the login flow against an arbitrary page. */
module PortalSession {
  import opened Text

  // --- Error taxonomy ---

  datatype Code =
    | BadCredential | MfaFailed | MfaRequiredNotConfigured | LoginPageNotRecognized | SessionLost
    | CredentialNotConfigured | PersonaNotFound | PersonaInactive | DevAuthModeRefused
    | PageNotReached | MfaSeedInvalid

  const PERMANENT: set<Code> := {
    BadCredential, MfaFailed, MfaRequiredNotConfigured, LoginPageNotRecognized, CredentialNotConfigured,
    PersonaNotFound, PersonaInactive, DevAuthModeRefused, MfaSeedInvalid}

  predicate Retryable(code: Code) {
    code !in PERMANENT
  }

  // --- Form recognition ---

  /** The four case-insensitive patterns, as predicates on one attribute. */
  datatype Patterns = Patterns(user: string -> bool, loginButton: string -> bool,
                               code: string -> bool, verifyButton: string -> bool)

  datatype Input = Input(idx: nat, kind: string, id: string, name: string, placeholder: string,
                         ariaLabel: string, labelText: string)
  datatype Button = Button(idx: nat, text: string, value: string, id: string)
  datatype Inventory = Inventory(inputs: seq<Input>, buttons: seq<Button>)

  datatype Form = LoginForm(username: nat, password: nat, submit: nat) | MfaForm(codeField: nat, verify: nat) | Unknown

  predicate AttrMatch(rx: string -> bool, item: Input) {
    rx(item.id) || rx(item.name) || rx(item.placeholder) || rx(item.ariaLabel) || rx(item.labelText)
  }

  predicate ButtonMatch(rx: string -> bool, b: Button) {
    rx(b.text) || rx(b.value) || rx(b.id)
  }

  predicate IsPassword(item: Input) {
    item.kind == "password"
  }

  predicate IsUser(p: Patterns, item: Input) {
    item.kind in {"text", "email", ""} && AttrMatch(p.user, item)
  }

  predicate IsCode(p: Patterns, item: Input) {
    item.kind in {"text", "tel", "number", ""} && AttrMatch(p.code, item)
  }

  function Keep<T>(s: seq<T>, p: T -> bool): (r: seq<T>)
    ensures |r| <= |s|
    ensures forall i :: 0 <= i < |r| ==> r[i] in s && p(r[i])
  {
    if s == [] then [] else (if p(s[0]) then [s[0]] else []) + Keep(s[1..], p)
  }

  function ClassifyInventory(p: Patterns, inv: Inventory): Form {
    var passwords := Keep(inv.inputs, (i: Input) => IsPassword(i));
    if |passwords| == 1 then
      var users := Keep(inv.inputs, (i: Input) => IsUser(p, i));
      var submits := Keep(inv.buttons, (b: Button) => ButtonMatch(p.loginButton, b));
      if |users| == 1 && |submits| == 1 then LoginForm(users[0].idx, passwords[0].idx, submits[0].idx) else Unknown
    else if |passwords| == 0 then
      var codes := Keep(inv.inputs, (i: Input) => IsCode(p, i));
      var verifies := Keep(inv.buttons, (b: Button) => ButtonMatch(p.verifyButton, b));
      if |codes| == 1 && |verifies| == 1 then MfaForm(codes[0].idx, verifies[0].idx) else Unknown
    else Unknown
  }

  /** Position `i` is the only one of `s` that satisfies `p`. */
  ghost predicate OnlyAt<T>(s: seq<T>, p: T -> bool, i: nat) {
    i < |s| && p(s[i]) && forall j :: 0 <= j < |s| && p(s[j]) ==> j == i
  }

  ghost predicate ExactlyOne<T>(s: seq<T>, p: T -> bool) {
    exists i: nat :: OnlyAt(s, p, i)
  }

  lemma {:induction false} KeepNone<T>(s: seq<T>, p: T -> bool)
    ensures Keep(s, p) == [] <==> forall j :: 0 <= j < |s| ==> !p(s[j])
  {
    if s != [] {
      KeepNone(s[1..], p);
      assert forall j :: 1 <= j < |s| ==> s[j] == s[1..][j - 1];
    }
  }

  lemma {:induction false} KeepOne<T>(s: seq<T>, p: T -> bool)
    ensures |Keep(s, p)| == 1 <==> ExactlyOne(s, p)
    ensures forall i: nat :: OnlyAt(s, p, i) ==> Keep(s, p) == [s[i]]
  {
    if s != [] {
      var rest := s[1..];
      assert forall j :: 1 <= j < |s| ==> s[j] == rest[j - 1];
      KeepOne(rest, p);
      KeepNone(rest, p);
      if p(s[0]) {
        if Keep(rest, p) == [] {
          assert OnlyAt(s, p, 0);
        }
      } else {
        forall i: nat | OnlyAt(rest, p, i)
          ensures OnlyAt(s, p, i + 1)
        {
        }
        forall i: nat | OnlyAt(s, p, i)
          ensures i > 0 && OnlyAt(rest, p, i - 1)
        {
        }
      }
    }
  }

  // --- The roles on the page, spelled out ---

  /** One of the attributes that name the field matches. */
  predicate NamedLike(rx: string -> bool, i: Input) {
    exists t :: t in {i.id, i.name, i.placeholder, i.ariaLabel, i.labelText} && rx(t)
  }

  predicate UserField(p: Patterns, i: Input) {
    (i.kind == "text" || i.kind == "email" || i.kind == "") && NamedLike(p.user, i)
  }

  predicate CodeField(p: Patterns, i: Input) {
    (i.kind == "text" || i.kind == "tel" || i.kind == "number" || i.kind == "") && NamedLike(p.code, i)
  }

  predicate Says(rx: string -> bool, b: Button) {
    exists t :: t in {b.text, b.value, b.id} && rx(t)
  }

  lemma RolesExactly(p: Patterns)
    ensures forall i: Input :: UserField(p, i) <==> IsUser(p, i)
    ensures forall i: Input :: CodeField(p, i) <==> IsCode(p, i)
    ensures forall b: Button :: Says(p.loginButton, b) <==> ButtonMatch(p.loginButton, b)
    ensures forall b: Button :: Says(p.verifyButton, b) <==> ButtonMatch(p.verifyButton, b)
  {
  }

  /** The two tests single out the same positions. */
  ghost predicate SameAt<T>(s: seq<T>, p: T -> bool, q: T -> bool) {
    (ExactlyOne(s, p) <==> ExactlyOne(s, q)) && forall i: nat :: OnlyAt(s, p, i) <==> OnlyAt(s, q, i)
  }

  lemma SameRole<T>(s: seq<T>, p: T -> bool, q: T -> bool)
    requires forall x :: x in s ==> (p(x) <==> q(x))
    ensures SameAt(s, p, q)
  {
    forall i: nat
      ensures OnlyAt(s, p, i) <==> OnlyAt(s, q, i)
    {
    }
  }

  lemma SameRoles(p: Patterns, inv: Inventory)
    ensures SameAt(inv.inputs, (i: Input) => i.kind == "password", (i: Input) => IsPassword(i))
    ensures SameAt(inv.inputs, (i: Input) => UserField(p, i), (i: Input) => IsUser(p, i))
    ensures SameAt(inv.inputs, (i: Input) => CodeField(p, i), (i: Input) => IsCode(p, i))
    ensures SameAt(inv.buttons, (b: Button) => Says(p.loginButton, b), (b: Button) => ButtonMatch(p.loginButton, b))
    ensures SameAt(inv.buttons, (b: Button) => Says(p.verifyButton, b), (b: Button) => ButtonMatch(p.verifyButton, b))
  {
    RolesExactly(p);
    SameRole(inv.inputs, (i: Input) => i.kind == "password", (i: Input) => IsPassword(i));
    SameRole(inv.inputs, (i: Input) => UserField(p, i), (i: Input) => IsUser(p, i));
    SameRole(inv.inputs, (i: Input) => CodeField(p, i), (i: Input) => IsCode(p, i));
    SameRole(inv.buttons, (b: Button) => Says(p.loginButton, b), (b: Button) => ButtonMatch(p.loginButton, b));
    SameRole(inv.buttons, (b: Button) => Says(p.verifyButton, b), (b: Button) => ButtonMatch(p.verifyButton, b));
  }

  /** A login form is recognised exactly when one password field, one user field and one
      login button stand out; any ambiguity is unknown. */
  lemma LoginFormExactlyOne(p: Patterns, inv: Inventory, user: nat, password: nat, submit: nat)
    requires OnlyAt(inv.inputs, (i: Input) => i.kind == "password", password)
    requires OnlyAt(inv.inputs, (i: Input) => UserField(p, i), user)
    requires OnlyAt(inv.buttons, (b: Button) => Says(p.loginButton, b), submit)
    ensures ClassifyInventory(p, inv) ==
            LoginForm(inv.inputs[user].idx, inv.inputs[password].idx, inv.buttons[submit].idx)
    ensures user != password
  {
    SameRoles(p, inv);
    KeepOne(inv.inputs, (i: Input) => IsPassword(i));
    KeepOne(inv.inputs, (i: Input) => IsUser(p, i));
    KeepOne(inv.buttons, (b: Button) => ButtonMatch(p.loginButton, b));
    assert IsPassword(inv.inputs[password]) && IsUser(p, inv.inputs[user]);
  }

  /** A code form is recognised exactly when there is no password field, and one code field and
      one verify button stand out. */
  lemma CodeFormExactlyOne(p: Patterns, inv: Inventory, code: nat, verify: nat)
    requires forall j :: 0 <= j < |inv.inputs| ==> inv.inputs[j].kind != "password"
    requires OnlyAt(inv.inputs, (i: Input) => CodeField(p, i), code)
    requires OnlyAt(inv.buttons, (b: Button) => Says(p.verifyButton, b), verify)
    ensures ClassifyInventory(p, inv) == MfaForm(inv.inputs[code].idx, inv.buttons[verify].idx)
  {
    SameRoles(p, inv);
    KeepNone(inv.inputs, (i: Input) => IsPassword(i));
    KeepOne(inv.inputs, (i: Input) => IsCode(p, i));
    KeepOne(inv.buttons, (b: Button) => ButtonMatch(p.verifyButton, b));
  }

  lemma RecognisedFormsAreUnambiguous(p: Patterns, inv: Inventory)
    ensures ClassifyInventory(p, inv).LoginForm? <==>
              ExactlyOne(inv.inputs, (i: Input) => i.kind == "password") &&
              ExactlyOne(inv.inputs, (i: Input) => UserField(p, i)) &&
              ExactlyOne(inv.buttons, (b: Button) => Says(p.loginButton, b))
    ensures ClassifyInventory(p, inv).MfaForm? <==>
              (forall j :: 0 <= j < |inv.inputs| ==> inv.inputs[j].kind != "password") &&
              ExactlyOne(inv.inputs, (i: Input) => CodeField(p, i)) &&
              ExactlyOne(inv.buttons, (b: Button) => Says(p.verifyButton, b))
  {
    SameRoles(p, inv);
    KeepNone(inv.inputs, (i: Input) => IsPassword(i));
    KeepOne(inv.inputs, (i: Input) => IsPassword(i));
    KeepOne(inv.inputs, (i: Input) => IsUser(p, i));
    KeepOne(inv.inputs, (i: Input) => IsCode(p, i));
    KeepOne(inv.buttons, (b: Button) => ButtonMatch(p.loginButton, b));
    KeepOne(inv.buttons, (b: Button) => ButtonMatch(p.verifyButton, b));
  }

  // --- The page ---

  datatype Fault = TimeoutFault | PageFault(navDestroyed: bool) | OtherFault

  /** Everything the page, the clock and the code generator may answer, by interaction number. */
  datatype Script = Script(
    fault: nat -> Option<Fault>, inventory: nat -> Inventory, remainingMs: nat -> int, onLoginRoute: nat -> bool)

  datatype Credentials = Credentials(totpSeed: Option<string>)

  datatype Action = FillUsername | FillPassword | ClickSubmit | FillCode | ClickVerify

  /** Everything one login ever does to the form, in order. */
  const FULL_LOGIN := [FillUsername, FillPassword, ClickSubmit, FillCode, ClickVerify]

  datatype Event = LoginSubmitted | MfaSubmitted | MfaNotPresented

  /** How one login call went: the actions it performed, the forms it settled on after each
      wait, the events of a landed login, and the code it raised (None when it landed). */
  datatype LoginRun = LoginRun(actions: seq<Action>, seen: seq<Form>, events: seq<Event>, raised: Option<Code>)

  predicate PasswordSubmitted(run: LoginRun) {
    ClickSubmit in run.actions
  }

  function Last<T>(s: seq<T>): T
    requires s != []
  {
    s[|s| - 1]
  }

  /** What the login flow promises whatever the page does. */
  predicate LoginContract(run: LoginRun) {
    && run.actions <= FULL_LOGIN
    && (run.raised.None? ==>
          && (run.actions == FULL_LOGIN[..3] || run.actions == FULL_LOGIN)
          && run.events == [LoginSubmitted, if run.actions == FULL_LOGIN then MfaSubmitted else MfaNotPresented]
          && run.seen != [] && Last(run.seen) == Unknown)
    && (run.raised.Some? ==>
          match run.raised.value
          case PageNotReached => run.actions == [] && run.seen == []
          case BadCredential =>
            run.actions == FULL_LOGIN[..3] && |run.seen| >= 2 && Last(run.seen).LoginForm? &&
                run.seen[|run.seen| - 2].LoginForm?
          case MfaRequiredNotConfigured => run.actions == FULL_LOGIN[..3] && run.seen != [] && Last(run.seen).MfaForm?
          case MfaSeedInvalid => run.actions == FULL_LOGIN[..3] && run.seen != [] && Last(run.seen).MfaForm?
          case MfaFailed =>
            run.actions == FULL_LOGIN && |run.seen| >= 2 && !Last(run.seen).Unknown? &&
                !run.seen[|run.seen| - 2].Unknown?
          case LoginPageNotRecognized => true
          case _ => false)
  }

  /** A login that may be retried never submitted the password. */
  lemma RetryableLoginSubmittedNothing(run: LoginRun)
    requires LoginContract(run) && run.raised.Some? && Retryable(run.raised.value)
    ensures !PasswordSubmitted(run) && run.actions == []
  {
    assert run.raised.value == PageNotReached;
  }

  /** Python's whitespace, kept abstract. */
  function NormaliseSeed(ws: char -> bool, seed: string): string {
    Keep(seed, c => !ws(c) && c != '-')
  }

  const MAX_ROUNDS: nat := 6

  datatype Try<T> = Ok(value: T) | Thrown(fault: Fault)

  class LoginPage {
    const patterns: Patterns
    const script: Script
    var clock: nat
    var actions: seq<Action>
    var seen: seq<Form>

    constructor (patterns: Patterns, script: Script)
      ensures actions == [] && seen == []
    {
      this.patterns, this.script := patterns, script;
      clock, actions, seen := 0, [], [];
    }

    /** One interaction with the browser. */
    method Call() returns (fault: Option<Fault>)
      modifies this`clock
      ensures clock == old(clock) + 1 && fault == script.fault(old(clock))
    {
      fault := script.fault(clock);
      clock := clock + 1;
    }

    method Act(action: Action) returns (fault: Option<Fault>)
      modifies this`clock, this`actions
      ensures actions == old(actions) + [action]
    {
      actions := actions + [action];
      fault := Call();
    }

    /** Bounded navigation: up to three attempts, playwright errors retried. */
    method NavigateWithRetry() returns (r: Try<bool>)
      modifies this`clock
      ensures old(clock) <= clock <= old(clock) + 3
      ensures r == Ok(true) ==> clock > old(clock) && script.fault(clock - 1).None?
      ensures r == Ok(false) ==> clock == old(clock) + 3 || script.remainingMs(clock) <= 1
      ensures forall k: nat | old(clock) <= k < clock - 1 :: script.fault(k).Some? && !script.fault(k).value.OtherFault?
    {
      for attempt := 0 to 3
        invariant clock == old(clock) + attempt
        invariant forall k: nat | old(clock) <= k < clock :: script.fault(k).Some? && !script.fault(k).value.OtherFault?
      {
        if script.remainingMs(clock) <= 1 {
          return Ok(false);
        }
        var fault := Call();
        if fault.None? {
          return Ok(true);
        }
        if fault.value.OtherFault? {
          return Thrown(fault.value);
        }
      }
      return Ok(false);
    }

    /** The structural-quiet settle swallows every playwright error. */
    method Settle() returns (r: Try<bool>)
      modifies this`clock
    {
      var fault := Call();
      if fault.Some? && fault.value.OtherFault? {
        return Thrown(fault.value);
      }
      return Ok(fault.None?);
    }

    /** Inventory, retried once when a navigation destroyed the execution context. */
    method TakeInventory() returns (r: Try<Inventory>)
      modifies this`clock
      ensures r.Ok? ==> r.value == script.inventory(clock)
    {
      var fault := Call();
      if fault.None? {
        return Ok(script.inventory(clock));
      }
      if !fault.value.PageFault? || !fault.value.navDestroyed {
        return Thrown(fault.value);
      }
      fault := Call();
      if fault.Some? {
        return Thrown(fault.value);
      }
      fault := Call();
      if fault.Some? {
        return Thrown(fault.value);
      }
      return Ok(script.inventory(clock));
    }

    /** Looks at the page in up to six rounds, `looks` being when. A recognised form is the only
        early exit: unknown is concluded after six looks without one, or when time is up. */
    method StableClassify() returns (r: Try<Form>, ghost looks: seq<nat>)
      modifies this`clock, this`seen
      ensures seen == if r.Ok? then old(seen) + [r.value] else old(seen)
      ensures |looks| <= 6 && (r.Ok? ==> looks != [])
      ensures UnknownSoFar(if r.Ok? then looks[..|looks| - 1] else looks)
      ensures r.Ok? ==> r.value == ClassifyInventory(patterns, script.inventory(Last(looks)))
      ensures r == Ok(Unknown) ==> |looks| == 6 || script.remainingMs(Last(looks)) <= 1
    {
      var kind := Unknown;
      looks := [];
      for round := 0 to MAX_ROUNDS
        invariant seen == old(seen) && kind == Unknown && |looks| == round && UnknownSoFar(looks)
      {
        var inv := TakeInventory();
        if inv.Thrown? {
          return Thrown(inv.fault), looks;
        }
        kind := ClassifyInventory(patterns, inv.value);
        looks := looks + [clock];
        assert looks[..|looks| - 1] == looks[..round];
        if kind != Unknown {
          seen := seen + [kind];
          return Ok(kind), looks;
        }
        if script.remainingMs(clock) <= 1 {
          break;
        }
        var quiet := Settle();
        if quiet.Thrown? {
          return Thrown(quiet.fault), looks;
        }
      }
      seen := seen + [kind];
      return Ok(kind), looks;
    }

    /** No form was recognised at these looks. */
    ghost predicate UnknownSoFar(looks: seq<nat>) {
      forall k :: 0 <= k < |looks| ==> ClassifyInventory(patterns, script.inventory(looks[k])) == Unknown
    }

    /** Classify, and once more after a settle when the first answer says the submit was
        rejected: a form still on screen may just be the old page navigating away. */
    method ClassifyTwice(onlyLogin: bool) returns (r: Try<Form>)
      modifies this`clock, this`seen
      ensures r.Ok? ==> seen != [] && Last(seen) == r.value
      ensures r.Ok? && Rejects(r.value, onlyLogin) ==>
                |seen| >= 2 && seen[..|seen| - 2] == old(seen) && Rejects(seen[|seen| - 2], onlyLogin)
    {
      ghost var looks, before := [], seen;
      r, looks := StableClassify();
      if r.Ok? && Rejects(r.value, onlyLogin) {
        ghost var first := r.value;
        var quiet := Settle();
        if quiet.Thrown? {
          return Thrown(quiet.fault);
        }
        r, looks := StableClassify();
        if r.Ok? {
          TwoMore(before, first, r.value, seen);
        }
      }
    }

    /** Reach the page and recognise the login form. */
    method ReachLoginForm() returns (code: Option<Code>)
      modifies this`clock, this`seen
      ensures code == Some(PageNotReached) ==> seen == old(seen)
      ensures code in {None, Some(PageNotReached), Some(LoginPageNotRecognized)}
    {
      var nav := NavigateWithRetry();
      if nav.Thrown? {
        return Some(LoginPageNotRecognized);
      }
      if !nav.value {
        return Some(PageNotReached);
      }
      var quiet := Settle();
      if quiet.Thrown? {
        return Some(LoginPageNotRecognized);
      }
      var initial, _ := StableClassify();
      return if initial.Thrown? || !initial.value.LoginForm? then Some(LoginPageNotRecognized) else None;
    }

    /** Reach the page, recognise the login form and submit the password. */
    method SubmitPassword() returns (code: Option<Code>)
      requires actions == [] && seen == []
      modifies this
      ensures actions <= FULL_LOGIN[..3]
      ensures code.None? ==> actions == FULL_LOGIN[..3]
      ensures code == Some(PageNotReached) ==> actions == [] && seen == []
      ensures code in {None, Some(PageNotReached), Some(LoginPageNotRecognized)}
    {
      code := ReachLoginForm();
      if code.Some? {
        return;
      }
      var fault := Act(FillUsername);
      if fault.Some? {
        return Some(LoginPageNotRecognized);
      }
      fault := Act(FillPassword);
      if fault.Some? {
        return Some(LoginPageNotRecognized);
      }
      fault := Act(ClickSubmit);
      return if fault.Some? then Some(LoginPageNotRecognized) else None;
    }

    /** Answer a recognised verification form with one code. */
    method SubmitCode(creds: Credentials, ws: char -> bool, seedWorks: string -> bool) returns (code: Option<Code>)
      requires actions == FULL_LOGIN[..3] && seen != [] && Last(seen).MfaForm?
      modifies this
      ensures FULL_LOGIN[..3] <= actions <= FULL_LOGIN
      ensures code.None? ==> actions == FULL_LOGIN && seen != [] && Last(seen) == Unknown
      ensures code in {None, Some(MfaRequiredNotConfigured), Some(MfaSeedInvalid), Some(MfaFailed),
              Some(LoginPageNotRecognized)}
      ensures code in {Some(MfaRequiredNotConfigured), Some(MfaSeedInvalid)} ==>
              actions == old(actions) && seen == old(seen)
      ensures code == Some(MfaRequiredNotConfigured) <==> creds.totpSeed in {None, Some("")}
      ensures code == Some(MfaSeedInvalid) <==>
              creds.totpSeed !in {None, Some("")} && SeedUnusable(creds, ws, seedWorks)
      ensures code == Some(MfaFailed) ==>
                actions == FULL_LOGIN && |seen| >= 2 && !Last(seen).Unknown? && !seen[|seen| - 2].Unknown?
    {
      if creds.totpSeed.None? || creds.totpSeed.value == "" {
        return Some(MfaRequiredNotConfigured);
      }
      var seed := NormaliseSeed(ws, creds.totpSeed.value);
      if seed == "" || !seedWorks(seed) {
        return Some(MfaSeedInvalid);
      }
      var fault := Act(FillCode);
      if fault.Some? {
        return Some(LoginPageNotRecognized);
      }
      fault := Act(ClickVerify);
      if fault.Some? {
        return Some(LoginPageNotRecognized);
      }
      var quiet := Settle();
      if quiet.Thrown? {
        return Some(LoginPageNotRecognized);
      }
      var kind := ClassifyTwice(false);
      if kind.Thrown? {
        return Some(LoginPageNotRecognized);
      }
      return if kind.value.Unknown? then None else Some(MfaFailed);
    }

    /** One login per job. Every fault maps to a code: nothing escapes uncoded. */
    method Login(creds: Credentials, ws: char -> bool, seedWorks: string -> bool) returns (run: LoginRun)
      requires actions == [] && seen == []
      modifies this
      ensures LoginContract(run)
      ensures run.actions == actions && run.seen == seen
      ensures run.raised == Some(MfaRequiredNotConfigured) ==> creds.totpSeed in {None, Some("")}
      ensures run.raised == Some(MfaSeedInvalid) ==> SeedUnusable(creds, ws, seedWorks)
      ensures run.raised.None? ==> !script.onLoginRoute(clock)
    {
      var code := SubmitPassword();
      if code.Some? {
        return LoginRun(actions, seen, [], code);
      }
      var quiet := Settle();
      if quiet.Thrown? {
        return LoginRun(actions, seen, [], Some(LoginPageNotRecognized));
      }
      var kind := ClassifyTwice(true);
      if kind.Thrown? {
        return LoginRun(actions, seen, [], Some(LoginPageNotRecognized));
      }
      if kind.value.LoginForm? {
        return LoginRun(actions, seen, [], Some(BadCredential));
      }
      var events := [LoginSubmitted, MfaNotPresented];
      if kind.value.MfaForm? {
        code := SubmitCode(creds, ws, seedWorks);
        if code.Some? {
          return LoginRun(actions, seen, [], code);
        }
        events := [LoginSubmitted, MfaSubmitted];
      }
      if script.onLoginRoute(clock) {
        return LoginRun(actions, seen, [], Some(LoginPageNotRecognized));
      }
      return LoginRun(actions, seen, events, None);
    }
  }

  predicate SeedUnusable(creds: Credentials, ws: char -> bool, seedWorks: string -> bool) {
    creds.totpSeed.Some? &&
    var seed := Keep(creds.totpSeed.value, (c: char) => !ws(c) && c != '-');
    seed == "" || !seedWorks(seed)
  }

  lemma TwoMore(before: seq<Form>, first: Form, second: Form, after: seq<Form>)
    requires after == before + [first] + [second]
    ensures |after| >= 2 && after[..|after| - 2] == before && after[|after| - 2] == first && Last(after) == second
  {
  }

  /** Which settled form counts as a rejection of the submit. */
  predicate Rejects(form: Form, onlyLogin: bool) {
    form.LoginForm? || (!onlyLogin && form.MfaForm?)
  }
}
