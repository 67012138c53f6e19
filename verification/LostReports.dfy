/** What no report tells: a punctual run in which an attempt dies between the portal's refusal of
    the password and its report, and the next attempt submits the password again. */
module LostReports {
  import opened Text
  import opened RunManifest
  import opened JobQueue
  import opened PortalSession
  import opened Protocol
  import L = LeaseLedger
  import opened LateWriters

  /** The portal showed the login form again after the password. */
  const REJECTED := LoginRun([FillUsername, FillPassword, ClickSubmit], [LoginForm(0, 1, 0), LoginForm(0, 1, 0)],
                             [], Some(BadCredential))

  lemma RejectedIsALogin()
    ensures LoginContract(REJECTED) && PasswordSubmitted(REJECTED) && !Retryable(BadCredential)
  {
    assert FULL_LOGIN[..3] == REJECTED.actions && REJECTED.actions[2] == ClickSubmit;
  }

  /** Some run without late writers leads to this state. */
  ghost predicate Punctually(env: Env, s: State) {
    exists ss, steps :: TimelyExecution(env, ss, steps) && ss[|steps|] == s
  }

  lemma Onward(env: Env, s: State, step: Step) returns (s': State)
    requires Punctually(env, s) && Enabled(env, s, step) && Timely(s, step)
    ensures s' == Next(env, s, step) && Punctually(env, s')
  {
    var ss, steps :| TimelyExecution(env, ss, steps) && ss[|steps|] == s;
    s' := Next(env, s, step);
    assert TimelyExecution(env, ss + [s'], steps + [step]) && (ss + [s'])[|steps + [step]|] == s';
  }

  lemma FirstJob(env: Env) returns (s: State)
    ensures Punctually(env, s) && LoginJob(s, L.Pending, 0, 0)
  {
    var ss, steps: seq<Step> := [EMPTY], [];
    assert TimelyExecution(env, ss, steps) && ss[|steps|] == EMPTY;
    s := Onward(env, EMPTY, CreateManifest(M, LOGIN_PLAN));
    s := Onward(env, s, EnqueueJob(J, M));
  }

  lemma Claims(env: Env, s: State, k: nat, now: nat) returns (s': State)
    requires Punctually(env, s) && LoginJob(s, L.Pending, k, now)
    ensures Punctually(env, s') && LoginJob(s', L.InProgress, k + 1, now)
    ensures s'.workers == s.workers[(J, k + 1) := Worker(Start, 0, None, None)]
  {
    assert OldestClaimable(s.jobs, J);
    s' := Onward(env, s, ClaimJob(J, "worker"));
  }

  /** From its claim to the refusal, beating once before it logs in. */
  lemma PasswordRefused(env: Env, s: State, a: nat, now: nat) returns (s': State)
    requires Punctually(env, s) && LoginJob(s, L.InProgress, a, now)
    requires (J, a) in s.workers && s.workers[(J, a)] == Worker(Start, 0, None, None)
    ensures Punctually(env, s') && LoginJob(s', L.InProgress, a, now) && s'.jobs[J].heartbeatAt == Some(now)
    ensures s'.workers == s.workers[(J, a) := Worker(FailLogin(BadCredential), 0, Some(REJECTED), None)]
  {
    s' := LogsIn(env, s, a, now);
    RejectedIsALogin();
    s' := Onward(env, s', Work(J, a, LoginAs(REJECTED)));
  }

  lemma LogsIn(env: Env, s: State, a: nat, now: nat) returns (s': State)
    requires Punctually(env, s) && LoginJob(s, L.InProgress, a, now)
    requires (J, a) in s.workers && s.workers[(J, a)] == Worker(Start, 0, None, None)
    ensures Punctually(env, s') && LoginJob(s', L.InProgress, a, now) && s'.jobs[J].heartbeatAt == Some(now)
    ensures s'.workers == s.workers[(J, a) := Worker(LoginCall, 0, None, None)]
  {
    s' := Onward(env, s, Work(J, a, CredentialsOk));
    s' := Onward(env, s', Work(J, a, BeatLogin));
  }

  lemma Dies(env: Env, s: State, k: nat, now: nat) returns (s': State)
    requires Punctually(env, s) && LoginJob(s, L.InProgress, k, now) && s.jobs[J].heartbeatAt == Some(now)
    requires k < L.MAX_ATTEMPTS
    ensures Punctually(env, s') && LoginJob(s', L.Pending, k, now + 121) && s'.workers == s.workers
  {
    s' := Onward(env, s, Tick(121));
    s' := Onward(env, s', ReapJobs);
  }

  ghost predicate Refused(workers: map<WorkerId, Worker>, a: nat) {
    (J, a) in workers && workers[(J, a)].login == Some(REJECTED) && workers[(J, a)].ended.None?
  }

  ghost predicate AllRefused(workers: map<WorkerId, Worker>, k: nat) {
    forall a: nat :: 1 <= a <= k ==> Refused(workers, a)
  }

  lemma ClaimedAndRefused(env: Env, s: State, k: nat, now: nat) returns (s': State)
    requires Punctually(env, s) && LoginJob(s, L.Pending, k, now) && AllRefused(s.workers, k)
    ensures Punctually(env, s') && LoginJob(s', L.InProgress, k + 1, now) && s'.jobs[J].heartbeatAt == Some(now)
    ensures AllRefused(s'.workers, k + 1)
  {
    s' := Claims(env, s, k, now);
    s' := PasswordRefused(env, s', k + 1, now);
    forall a: nat | 1 <= a <= k
      ensures Refused(s'.workers, a)
    {
      assert Refused(s.workers, a);
    }
  }

  /** Every attempt submits the rejected password, as long as each dies before its report. */
  lemma PasswordIsSubmittedAgain(env: Env) returns (s: State)
    ensures Punctually(env, s) && J in s.jobs && s.jobs[J].attempts == L.MAX_ATTEMPTS
    ensures forall a: nat :: 1 <= a <= L.MAX_ATTEMPTS ==> Refused(s.workers, a)
    ensures PasswordSubmitted(REJECTED) && REJECTED.raised == Some(BadCredential)
  {
    RejectedIsALogin();
    s := FirstJob(env);
    for k: nat := 0 to L.MAX_ATTEMPTS - 1
      invariant Punctually(env, s) && LoginJob(s, L.Pending, k, 121 * k) && AllRefused(s.workers, k)
    {
      s := ClaimedAndRefused(env, s, k, 121 * k);
      s := Dies(env, s, k + 1, 121 * k);
    }
    s := ClaimedAndRefused(env, s, L.MAX_ATTEMPTS - 1, 121 * (L.MAX_ATTEMPTS - 1));
  }
}
