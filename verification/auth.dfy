/**
 * The screen lock of Authenticator/Source/Auth.swift: whether the token list
 * is hidden behind authentication, and when the app asks the system to
 * authenticate the user.
 *
 * The system's authentication prompt is outside the model: the component only
 * returns the request for it, and the prompt's outcome comes back as an
 * `AuthenticationSucceeded` or `AuthenticationFailed` event.
 */
module Auth {
  import opened Wrappers

  datatype State = Unlocked | Locked(shouldAuthenticateAutomatically: bool)

  /** The system error of a failed prompt is kept only as its description. */
  datatype Event =
    | ApplicationDidBecomeActive
    | ApplicationWillResignActive
    | AuthenticationSucceeded
    | AuthenticationFailed(error: string)

  datatype Action = TryToUnlock

  /**
   * Ask the system to authenticate the user. The prompt reports back with
   * `success`, or with `AuthenticationFailed` carrying the system's error.
   */
  datatype Effect = AuthenticateUser(success: Event)

  datatype ViewModel = ViewModel(enabled: bool)

  /** The one request the component ever makes. */
  const Authenticate: Effect := AuthenticateUser(AuthenticationSucceeded)

  predicate IsLocked(s: State) {
    match s
    case Unlocked => false
    case Locked(_) => true
  }

  /** `init(screenLockEnabled:)`: locked, and ready to prompt at once, exactly when the screen lock is on. */
  function Init(screenLockEnabled: bool): (s: State)
    ensures screenLockEnabled <==> s == Locked(true)
    ensures !screenLockEnabled <==> s == Unlocked
  {
    if screenLockEnabled then Locked(true) else Unlocked
  }

  /** `viewModel`: the lock screen shows whenever the state is locked, whatever the prompting flag. */
  function ViewModelOf(s: State): (vm: ViewModel)
    ensures vm.enabled <==> s != Unlocked
  {
    ViewModel(IsLocked(s))
  }

  /** `update(with: Action)`: unlocking by hand always prompts, and the state stays. */
  function UpdateWithAction(s: State, a: Action): (r: (State, Option<Effect>))
    ensures r.0 == s
    ensures r.1 == Some(Authenticate)
  {
    match a
    case TryToUnlock => (s, Some(Authenticate))
  }

  /**
   * `update(with: Event)`. Only becoming active while waiting to prompt
   * automatically produces a request; resigning relocks from anywhere; a
   * success unlocks; a failure of the automatic prompt stops further
   * automatic prompts but keeps the lock.
   */
  function UpdateWithEvent(s: State, e: Event): (r: (State, Option<Effect>))
    ensures r.1.Some? <==> e.ApplicationDidBecomeActive? && s == Locked(true)
    ensures r.1.Some? ==> r.1.value == Authenticate
    ensures e.ApplicationDidBecomeActive? ==> r.0 == s
    ensures e.ApplicationWillResignActive? ==> r.0 == Locked(true)
    ensures e.AuthenticationSucceeded? ==> r.0 == Unlocked
    ensures e.AuthenticationFailed? ==> IsLocked(r.0) == IsLocked(s) && r.0 != Locked(true)
    ensures e.AuthenticationFailed? && s != Locked(true) ==> r.0 == s
  {
    match e
    case ApplicationDidBecomeActive =>
      if s == Locked(true) then (s, Some(Authenticate)) else (s, None)
    case ApplicationWillResignActive => (Locked(true), None)
    case AuthenticationSucceeded => (Unlocked, None)
    case AuthenticationFailed(_) =>
      if s == Locked(true) then (Locked(false), None) else (s, None)
  }

  /** Feed a sequence of events through the component: the final state and the request after each event. */
  function Run(s: State, events: seq<Event>): (r: (State, seq<Option<Effect>>))
    ensures |r.1| == |events|
    decreases |events|
  {
    if |events| == 0 then (s, [])
    else
      var step := UpdateWithEvent(s, events[0]);
      var rest := Run(step.0, events[1..]);
      (rest.0, [step.1] + rest.1)
  }

  /**
   * Outside the "prompt automatically" state, no sequence of events without a
   * resignation ever produces a request, nor reaches that state.
   */
  lemma {:induction false} NoPromptWithoutResign(s: State, events: seq<Event>)
    requires s != Locked(true)
    requires forall k :: 0 <= k < |events| ==> !events[k].ApplicationWillResignActive?
    ensures Run(s, events).0 != Locked(true)
    ensures forall k :: 0 <= k < |events| ==> Run(s, events).1[k].None?
    decreases |events|
  {
    if |events| > 0 {
      var step := UpdateWithEvent(s, events[0]);
      assert forall k :: 0 <= k < |events[1..]| ==> !events[1..][k].ApplicationWillResignActive? by {
        forall k | 0 <= k < |events[1..]| ensures !events[1..][k].ApplicationWillResignActive? {
          assert events[1..][k] == events[k + 1];
        }
      }
      NoPromptWithoutResign(step.0, events[1..]);
    }
  }

  /**
   * After a failed automatic prompt, becoming active again asks for nothing
   * until the app has resigned active once more.
   */
  lemma FailedPromptIsNotRepeated(error: string, events: seq<Event>)
    requires forall k :: 0 <= k < |events| ==> !events[k].ApplicationWillResignActive?
    ensures forall k :: 1 <= k <= |events| ==>
      Run(Locked(true), [AuthenticationFailed(error)] + events).1[k].None?
  {
    var all := [AuthenticationFailed(error)] + events;
    assert all[1..] == events;
    NoPromptWithoutResign(Locked(false), events);
    var rest := Run(Locked(false), events);
    assert Run(Locked(true), all) == (rest.0, [None] + rest.1);
  }

  /** Resigning and becoming active, from any state, prompts. */
  lemma ResignThenActivePrompts(s: State)
    ensures Run(s, [ApplicationWillResignActive, ApplicationDidBecomeActive]).1[1] == Some(Authenticate)
  {
    var events := [ApplicationWillResignActive, ApplicationDidBecomeActive];
    assert events[1..] == [ApplicationDidBecomeActive];
    assert events[1..][1..] == [];
  }

  /** A locked component stays locked until an authentication succeeds. */
  lemma {:induction false} LockedUntilSuccess(s: State, events: seq<Event>)
    requires IsLocked(s)
    requires forall k :: 0 <= k < |events| ==> !events[k].AuthenticationSucceeded?
    ensures IsLocked(Run(s, events).0)
    decreases |events|
  {
    if |events| > 0 {
      var step := UpdateWithEvent(s, events[0]);
      assert forall k :: 0 <= k < |events[1..]| ==> !events[1..][k].AuthenticationSucceeded? by {
        forall k | 0 <= k < |events[1..]| ensures !events[1..][k].AuthenticationSucceeded? {
          assert events[1..][k] == events[k + 1];
        }
      }
      LockedUntilSuccess(step.0, events[1..]);
    }
  }
}
