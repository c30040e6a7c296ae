/**
 * `Runner.run` (executor/runner.py): when the store is activated, ask for the master password up to
 * `DV_MAX_UNLOCK_ATTEMPTS` times (default 3), then start the browser, visit the base URL and walk the
 * configured steps; the browser manager is shut down on every exit. Password prompts, the browser and the
 * steps' effects are parameters.
 */
module ExecutorRunner {
  import opened Wrappers
  import opened Strs
  import opened Entries
  import opened Json
  import opened Storage
  import opened Unlock
  import opened SeqUtil

  datatype Details = NoDetails | UnlockFailed(reason: map<string, string>) | StepsRun(steps: nat)

  /** `RunResult(success, details)`. */
  datatype RunResult = RunResult(success: bool, details: Details)

  /** How the unlock loop ends. `NeverTried`: `max_attempts <= 0`, the loop body never ran. */
  datatype LoopEnd = Unlocked(creds: Table<string, string>) | Exhausted(lastError: map<string, string>) | Crashed | NeverTried

  /** The loop from attempt `k` on: the outcome, the number of prompts from `k` on, and the "attempts left" counts printed. */
  datatype LoopRun = LoopRun(end: LoopEnd, prompts: nat, notices: seq<int>)

  /** The unlock loop from `try_count == k`; `prompt(k)` is the answer to the k-th password prompt. */
  function UnlockLoop(attempt: nat -> Result<Table<string, string>, Failure>, k: nat, max: int): (r: LoopRun)
    decreases max - k
  {
    if k >= max then LoopRun(NeverTried, 0, [])
    else match attempt(k)
      case Ok(t) => LoopRun(Unlocked(t), 1, [])
      case Err(OtherError) => LoopRun(Crashed, 1, [])
      case Err(UnlockError(e)) =>
        if k + 1 < max then
          var rest := UnlockLoop(attempt, k + 1, max);
          LoopRun(rest.end, rest.prompts + 1, [max - (k + 1)] + rest.notices)
        else LoopRun(Exhausted(e), 1, [])
  }

  /** Attempt `k` of the loop: `unlock_all` with the k-th password typed. */
  function Attempts(creds: map<string, Entry>, names: seq<string>, verify: Verify, prompt: nat -> string): nat -> Result<Table<string, string>, Failure>
  {
    (k: nat) => UnlockResult(creds, names, prompt(k), verify)
  }

  /** At most `max_attempts` passwords are asked for, and every printed count of attempts left is positive. */
  lemma {:induction false} UnlockLoopBounds(attempt: nat -> Result<Table<string, string>, Failure>, k: nat, max: int)
    ensures k < max ==> UnlockLoop(attempt, k, max).prompts <= max - k
    ensures k >= max ==> UnlockLoop(attempt, k, max).prompts == 0
    ensures forall i :: 0 <= i < |UnlockLoop(attempt, k, max).notices| ==>
              1 <= UnlockLoop(attempt, k, max).notices[i] < max - k
    ensures k < max ==> !UnlockLoop(attempt, k, max).end.NeverTried?
    decreases max - k
  {
    if k + 1 < max {
      UnlockLoopBounds(attempt, k + 1, max);
    }
  }

  /** The loop ends `Exhausted` exactly when every one of the remaining attempts raised `UnlockError`. */
  lemma {:induction false} ExhaustedIffAllRejected(attempt: nat -> Result<Table<string, string>, Failure>, k: nat, max: int)
    requires k < max
    ensures UnlockLoop(attempt, k, max).end.Exhausted? <==>
              forall j :: k <= j < max ==> attempt(j).Err? && attempt(j).error.UnlockError?
    ensures UnlockLoop(attempt, k, max).end.Exhausted? ==> UnlockLoop(attempt, k, max).prompts == max - k
    decreases max - k
  {
    if k + 1 < max {
      ExhaustedIffAllRejected(attempt, k + 1, max);
      UnlockLoopBounds(attempt, k + 1, max);
    }
  }

  /** A successful unlock hands back exactly the plaintexts of the first accepted password. */
  lemma {:induction false} UnlockedIsFirstAccepted(attempt: nat -> Result<Table<string, string>, Failure>, k: nat, max: int)
    requires UnlockLoop(attempt, k, max).end.Unlocked?
    ensures var r := UnlockLoop(attempt, k, max);
            var j := k + r.prompts - 1;
            k <= j < max && attempt(j) == Ok(r.end.creds)
            && forall i :: k <= i < j ==> attempt(i).Err?
    decreases max - k
  {
    if attempt(k).Err? {
      UnlockedIsFirstAccepted(attempt, k + 1, max);
    }
  }

  /** `int(os.environ.get('DV_MAX_UNLOCK_ATTEMPTS', '3'))`; None where `int` raises. */
  function MaxAttempts(env: Env): (r: Option<int>)
    ensures "DV_MAX_UNLOCK_ATTEMPTS" !in env ==> r == Some(3)
  {
    var raw := if "DV_MAX_UNLOCK_ATTEMPTS" in env then env["DV_MAX_UNLOCK_ATTEMPTS"] else "3";
    assert "3" == NatToString(3);
    ParseIntRoundTrip(3);
    ParseInt(raw)
  }

  /** `state.get('activated')` is truthy; None when `state` is not a dict and `.get` raises. */
  function Activated(state: Json): Option<bool>
  {
    if !state.JObj? then None
    else match Field(state, "activated") case Some(v) => Some(Truthy(v)) case None => Some(false)
  }

  /** The run's answer, the prompts asked, the notices printed and the credentials stored in `self.decrypted_creds`. */
  datatype RunEnd = RunEnd(result: RunResult, prompts: nat, notices: seq<int>, stored: Option<Table<string, string>>)

  /** After the unlock phase: start the browser and visit the steps (`browserOk`: neither start nor navigation raised). */
  function BrowserPhase(steps: nat, browserOk: bool): RunResult
  {
    if browserOk then RunResult(true, StepsRun(steps)) else RunResult(false, NoDetails)
  }

  function RunSpec(state: Json, maxAttempts: Option<int>, creds: map<string, Entry>, names: seq<string>, verify: Verify, prompt: nat -> string, steps: nat, browserOk: bool): (r: RunEnd)
  {
    match Activated(state)
    case None => RunEnd(RunResult(false, NoDetails), 0, [], None)
    case Some(false) => RunEnd(BrowserPhase(steps, browserOk), 0, [], None)
    case Some(true) =>
      match maxAttempts
      case None => RunEnd(RunResult(false, NoDetails), 0, [], None)
      case Some(m) =>
        var l := UnlockLoop(Attempts(creds, names, verify, prompt), 0, m);
        match l.end
        case NeverTried => RunEnd(BrowserPhase(steps, browserOk), l.prompts, l.notices, None)
        case Unlocked(t) => RunEnd(BrowserPhase(steps, browserOk), l.prompts, l.notices, Some(t))
        case Exhausted(e) => RunEnd(RunResult(false, UnlockFailed(e)), l.prompts, l.notices, None)
        case Crashed => RunEnd(RunResult(false, NoDetails), l.prompts, l.notices, None)
  }

  /** 'unlock_failed' is answered exactly when every allowed password was rejected; the browser is then never started. */
  lemma UnlockFailedIffAllRejected(state: Json, maxAttempts: Option<int>, creds: map<string, Entry>, names: seq<string>, verify: Verify, prompt: nat -> string, steps: nat, browserOk: bool)
    ensures RunSpec(state, maxAttempts, creds, names, verify, prompt, steps, browserOk).result.details.UnlockFailed? <==>
              Activated(state) == Some(true) && maxAttempts.Some? && maxAttempts.value > 0
              && forall j :: 0 <= j < maxAttempts.value ==>
                   UnlockResult(creds, names, prompt(j), verify).Err? && UnlockResult(creds, names, prompt(j), verify).error.UnlockError?
    ensures RunSpec(state, maxAttempts, creds, names, verify, prompt, steps, browserOk).result.details.UnlockFailed? ==>
              !RunSpec(state, maxAttempts, creds, names, verify, prompt, steps, browserOk).result.success
              && RunSpec(state, maxAttempts, creds, names, verify, prompt, steps, browserOk).prompts == maxAttempts.value
  {
    var a := Attempts(creds, names, verify, prompt);
    if Activated(state) == Some(true) && maxAttempts.Some? {
      var m := maxAttempts.value;
      if m > 0 {
        ExhaustedIffAllRejected(a, 0, m);
        assert forall j :: 0 <= j < m ==> a(j) == UnlockResult(creds, names, prompt(j), verify);
      }
    }
  }

  /** With `max_attempts <= 0` no password is asked for and the run goes on to the browser without credentials. */
  lemma NoAttemptsProceeds(state: Json, maxAttempts: Option<int>, creds: map<string, Entry>, names: seq<string>, verify: Verify, prompt: nat -> string, steps: nat, browserOk: bool)
    requires Activated(state) == Some(true) && maxAttempts.Some? && maxAttempts.value <= 0
    ensures RunSpec(state, maxAttempts, creds, names, verify, prompt, steps, browserOk) == RunEnd(BrowserPhase(steps, browserOk), 0, [], None)
  {
  }

  /** Only an activated store is unlocked: otherwise no password is asked for. */
  lemma InactiveNeverPrompts(state: Json, maxAttempts: Option<int>, creds: map<string, Entry>, names: seq<string>, verify: Verify, prompt: nat -> string, steps: nat, browserOk: bool)
    requires Activated(state) != Some(true)
    ensures RunSpec(state, maxAttempts, creds, names, verify, prompt, steps, browserOk).prompts == 0
    ensures RunSpec(state, maxAttempts, creds, names, verify, prompt, steps, browserOk).stored == None
  {
  }

  /** One turn of the loop, in terms of that attempt's unlock result. */
  lemma UnlockLoopStep(attempt: nat -> Result<Table<string, string>, Failure>, k: nat, max: int, u: Result<Table<string, string>, Failure>)
    requires k < max && u == attempt(k)
    ensures u.Ok? ==> UnlockLoop(attempt, k, max) == LoopRun(Unlocked(u.value), 1, [])
    ensures u == Err(OtherError) ==> UnlockLoop(attempt, k, max) == LoopRun(Crashed, 1, [])
    ensures u.Err? && u.error.UnlockError? && k + 1 >= max ==> UnlockLoop(attempt, k, max) == LoopRun(Exhausted(u.error.errors), 1, [])
    ensures u.Err? && u.error.UnlockError? && k + 1 < max ==>
              var rest := UnlockLoop(attempt, k + 1, max);
              UnlockLoop(attempt, k, max) == LoopRun(rest.end, rest.prompts + 1, [max - (k + 1)] + rest.notices)
  {
  }

  /** The `while try_count < max_attempts` loop: prompt, try `unlock_all`, stop at the first success or non-`UnlockError`. */
  method UnlockAttempts(store: LocalStore, names: seq<string>, prompt: nat -> string, verify: Verify, max: int) returns (r: LoopRun)
    requires IsListing(store.creds, names)
    ensures r == UnlockLoop(Attempts(store.creds, names, verify, prompt), 0, max)
  {
    r := PromptLoop(store.creds, names, prompt, verify, max);
    LoopFromSpec(Attempts(store.creds, names, verify, prompt), 0, max, [], None);
  }

  /**
   * The loop as written, from `try_count == k` with the notices printed so far and the last error
   * caught: it ends at the first success or non-`UnlockError`, or once `k` reaches `max`.
   */
  function LoopFrom(attempt: nat -> Result<Table<string, string>, Failure>, k: nat, max: int,
                    notices: seq<int>, lastError: Option<map<string, string>>): LoopRun
    decreases max - k
  {
    if k >= max then
      if lastError.Some? then LoopRun(Exhausted(lastError.value), k, notices) else LoopRun(NeverTried, 0, notices)
    else match attempt(k)
      case Ok(t) => LoopRun(Unlocked(t), k + 1, notices)
      case Err(OtherError) => LoopRun(Crashed, k + 1, notices)
      case Err(UnlockError(e)) =>
        LoopFrom(attempt, k + 1, max, if k + 1 < max then notices + [max - (k + 1)] else notices, Some(e))
  }

  /**
   * The loop as written agrees with `UnlockLoop`: from any state it adds the remaining prompts and
   * notices to those so far, and a loop that ran out of attempts reports the last error.
   */
  lemma {:induction false} LoopFromSpec(attempt: nat -> Result<Table<string, string>, Failure>, k: nat, max: int,
                                        notices: seq<int>, lastError: Option<map<string, string>>)
    requires lastError.None? <==> k == 0
    ensures var rest := UnlockLoop(attempt, k, max);
            LoopFrom(attempt, k, max, notices, lastError)
            == LoopRun(if rest.end.NeverTried? && lastError.Some? then Exhausted(lastError.value) else rest.end,
                       k + rest.prompts, notices + rest.notices)
    decreases max - k
  {
    if k < max {
      match attempt(k)
      case Ok(_) =>
      case Err(OtherError) =>
      case Err(UnlockError(e)) =>
        if k + 1 < max {
          var later := UnlockLoop(attempt, k + 1, max);
          LoopFromSpec(attempt, k + 1, max, notices + [max - (k + 1)], Some(e));
          UnlockLoopBounds(attempt, k + 1, max);
          ShiftOne(notices, max - (k + 1), later.notices);
        }
    }
  }

  /** That loop over the store's entries and their listing; each pass runs `unlock_all`'s pass over them. */
  method PromptLoop(creds: map<string, Entry>, names: seq<string>, prompt: nat -> string, verify: Verify, max: int) returns (r: LoopRun)
    ensures r == LoopFrom(Attempts(creds, names, verify, prompt), 0, max, [], None)
  {
    var tryCount: nat := 0;
    var lastError: Option<map<string, string>> := None;
    var notices: seq<int> := [];
    ghost var a := Attempts(creds, names, verify, prompt);
    while tryCount < max
      invariant LoopFrom(a, tryCount, max, notices, lastError) == LoopFrom(a, 0, max, [], None)
      decreases max - tryCount
    {
      var mpw := prompt(tryCount);
      var u := UnlockEntries(creds, names, mpw, verify);
      assert u == a(tryCount);
      match u {
        case Ok(t) =>
          return LoopRun(Unlocked(t), tryCount + 1, notices);
        case Err(OtherError) =>
          return LoopRun(Crashed, tryCount + 1, notices);
        case Err(UnlockError(e)) =>
          lastError := Some(e);
          tryCount := tryCount + 1;
          if tryCount < max {
            notices := notices + [max - tryCount];
          }
      }
    }
    if lastError.Some? {
      return LoopRun(Exhausted(lastError.value), tryCount, notices);
    }
    return LoopRun(NeverTried, 0, notices);
  }

  class Runner {
    /** `len(config.steps)`. */
    const steps: nat
    var decryptedCreds: Table<string, string>
    /** How many times `browser_manager.quit()` ran. */
    var quitCalls: nat

    constructor(steps: nat)
      ensures this.steps == steps && decryptedCreds == [] && quitCalls == 0
    {
      this.steps := steps;
      decryptedCreds := [];
      quitCalls := 0;
    }

    /** `run()`: the `try` body, then the `finally` that quits the browser manager. */
    method Run(store: LocalStore, names: seq<string>, env: Env, prompt: nat -> string, verify: Verify, browserOk: bool)
      returns (r: RunResult, prompts: nat, notices: seq<int>)
      requires IsListing(store.creds, names)
      modifies this
      ensures var spec := RunSpec(StateOf(store.state), MaxAttempts(env), store.creds, names, verify, prompt, steps, browserOk);
              r == spec.result && prompts == spec.prompts && notices == spec.notices
              && decryptedCreds == (if spec.stored.Some? then spec.stored.value else old(decryptedCreds))
      ensures quitCalls == old(quitCalls) + 1
    {
      r, prompts, notices := RunBody(store, names, env, prompt, verify, browserOk);
      quitCalls := quitCalls + 1;
    }

    method RunBody(store: LocalStore, names: seq<string>, env: Env, prompt: nat -> string, verify: Verify, browserOk: bool)
      returns (r: RunResult, prompts: nat, notices: seq<int>)
      requires IsListing(store.creds, names)
      modifies this
      ensures var spec := RunSpec(StateOf(store.state), MaxAttempts(env), store.creds, names, verify, prompt, steps, browserOk);
              r == spec.result && prompts == spec.prompts && notices == spec.notices
              && decryptedCreds == (if spec.stored.Some? then spec.stored.value else old(decryptedCreds))
      ensures quitCalls == old(quitCalls)
    {
      var state := store.LoadState();
      prompts, notices := 0, [];
      var activated := Activated(state);
      if activated.None? {
        return RunResult(false, NoDetails), prompts, notices;
      }
      if activated.value {
        var max := MaxAttempts(env);
        if max.None? {
          return RunResult(false, NoDetails), prompts, notices;
        }
        var l := UnlockAttempts(store, names, prompt, verify, max.value);
        prompts, notices := l.prompts, l.notices;
        match l.end {
          case NeverTried =>
          case Unlocked(t) =>
            decryptedCreds := t;
          case Crashed =>
            return RunResult(false, NoDetails), prompts, notices;
          case Exhausted(e) =>
            return RunResult(false, UnlockFailed(e)), prompts, notices;
        }
      }
      return BrowserPhase(steps, browserOk), prompts, notices;
    }
  }
}
