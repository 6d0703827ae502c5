/**
 The browser's sign-in bridge: one initialization of the identity provider, one
 prompt pending at a time, a cached credential, and callbacks and dismissals that
 may arrive in any order, also late.

 A step is what the code does between two awaits; the class does the steps on its
 fields.
 */
module IdentityBridge {
  import opened Option

  const CACHED_TOKEN_MARGIN_SECONDS: nat := 60

  datatype Credential = Credential(token: string, expiresAt: nat)

  /** A promise handed out by `prompt`; once settled it never changes. */
  datatype Promise = Open | Resolved(credential: Credential) | Rejected

  datatype Initialization = NotStarted | Loading | Ready | Broken

  /** What the provider does when asked to prompt. */
  datatype Display = Shown | DismissedAtOnce | Throws

  /** `receiving` lists the callbacks being checked: each is for the promise that was pending when it arrived. */
  datatype State = State(
    initialization: Initialization, initializeCalls: nat, pending: Option<nat>, cached: Option<Credential>,
    promises: seq<Promise>, receiving: seq<nat>)

  const INITIAL: State := State(NotStarted, 0, None, None, [], [])

  // ---- The steps

  /** A cached credential is served if none fresh is wanted and it will last. */
  function FromCache(s: State, isFresh: bool, now: nat): Option<Credential> {
    if !isFresh && s.cached.Some? && s.cached.value.expiresAt > now + CACHED_TOKEN_MARGIN_SECONDS
    then s.cached else None
  }

  /** The start of a request that the cache does not serve. */
  function Requested(s: State, isFresh: bool): State {
    s.(cached := if isFresh then None else s.cached,
       initialization := if s.initialization == NotStarted then Loading else s.initialization)
  }

  /** The provider's script has loaded, or not, and has taken its configuration, or not. */
  function Initialized(s: State, loaded: bool, taken: bool): State {
    s.(initializeCalls := if loaded then s.initializeCalls + 1 else s.initializeCalls,
       initialization := if loaded && taken then Ready else Broken)
  }

  /** A promise takes the first settlement it is given. */
  function SettledAt(promises: seq<Promise>, p: nat, outcome: Promise): seq<Promise>
    requires p < |promises|
  {
    if promises[p].Open? then promises[p := outcome] else promises
  }

  /** A prompt was dismissed, possibly long after it was answered. */
  function Dismissed(s: State, p: nat): State
    requires p < |s.promises|
  {
    s.(pending := if s.pending == Some(p) then None else s.pending, promises := SettledAt(s.promises, p, Rejected))
  }

  /** The prompt that is pending stays; else a new one becomes pending, unless it is refused at once. */
  function Prompted(s: State, display: Display): State {
    if s.pending.Some? then s
    else
      var asked := s.(promises := s.promises + [Open], pending := Some(|s.promises|));
      if display.Shown? then asked else Dismissed(asked, |s.promises|)
  }

  /** A callback arrives: it answers the prompt pending now, if any, once it is checked. */
  function CallbackCame(s: State): State {
    if s.pending.Some? then s.(receiving := s.receiving + [s.pending.value]) else s
  }

  /** A callback's credential was checked: it settles the prompt it came for, and no other. */
  function CallbackChecked(s: State, task: nat, checked: Option<Credential>): State
    requires task < |s.receiving| && s.receiving[task] < |s.promises|
  {
    var p := s.receiving[task];
    s.(receiving := s.receiving[..task] + s.receiving[task + 1..],
       cached := if checked.Some? then checked else s.cached,
       promises := SettledAt(s.promises, p, if checked.Some? then Resolved(checked.value) else Rejected),
       pending := if s.pending == Some(p) then None else s.pending)
  }

  /** Anything that can happen to the bridge next. */
  datatype Event =
    | Request(isFresh: bool, now: nat)
    | Loaded(loaded: bool, taken: bool)
    | Ask(display: Display)
    | Dismissal(promise: nat)
    | Callback
    | Checked(task: nat, result: Option<Credential>)

  /** A credential given out of the cache, and when. */
  datatype Served = Served(credential: Credential, at: nat)

  datatype Moment = Moment(bridge: State, served: seq<Served>)

  predicate CanBeChecked(s: State, task: nat) {
    task < |s.receiving| && s.receiving[task] < |s.promises|
  }

  /** One event; one that cannot take place changes nothing. */
  function Step(m: Moment, e: Event): Moment {
    var s := m.bridge;
    match e
    case Request(isFresh, now) =>
      if FromCache(s, isFresh, now).Some?
      then m.(served := m.served + [Served(FromCache(s, isFresh, now).value, now)])
      else m.(bridge := Requested(s, isFresh))
    case Loaded(loaded, taken) =>
      if s.initialization == Loading then m.(bridge := Initialized(s, loaded, taken)) else m
    case Ask(display) => if s.initialization == Ready then m.(bridge := Prompted(s, display)) else m
    case Dismissal(p) => if p < |s.promises| then m.(bridge := Dismissed(s, p)) else m
    case Callback => m.(bridge := CallbackCame(s))
    case Checked(task, result) =>
      if CanBeChecked(s, task) then m.(bridge := CallbackChecked(s, task, result)) else m
  }

  // ---- What every moment keeps

  /** Every promise is settled or is the one pending, and the provider is initialized at most once. */
  ghost predicate Valid(s: State) {
    && (s.pending.Some? ==> s.pending.value < |s.promises| && s.promises[s.pending.value].Open?)
    && (forall p: nat :: p < |s.promises| && s.promises[p].Open? ==> s.pending == Some(p))
    && (forall t :: 0 <= t < |s.receiving| ==> s.receiving[t] < |s.promises|)
    && s.initializeCalls <= 1
    && (s.initialization in {NotStarted, Loading} ==> s.initializeCalls == 0)
    && (s.initialization == Ready ==> s.initializeCalls == 1)
    && (s.promises != [] ==> s.initialization == Ready)
  }

  /** And every credential served from the cache still had more than a minute to live. */
  ghost predicate Sound(m: Moment) {
    && Valid(m.bridge)
    && forall i :: 0 <= i < |m.served| ==>
         m.served[i].credential.expiresAt > m.served[i].at + 60
  }

  /** Settled promises stay as they are. */
  ghost predicate SettledStay(before: seq<Promise>, after: seq<Promise>) {
    && |before| <= |after|
    && forall p: nat :: p < |before| && !before[p].Open? ==> after[p] == before[p]
  }

  lemma StepKeeps(m: Moment, e: Event)
    requires Sound(m)
    ensures Sound(Step(m, e)) && SettledStay(m.bridge.promises, Step(m, e).bridge.promises)
  {
  }

  /**
   What a checked callback does, whenever it comes: its prompt, if still open, is
   resolved with the credential or rejected, and nothing else is settled.
   */
  lemma CheckedSettlesItsOwn(s: State, task: nat, checked: Option<Credential>)
    requires Valid(s) && task < |s.receiving|
    ensures var p, t := s.receiving[task], CallbackChecked(s, task, checked);
            && |t.promises| == |s.promises|
            && t.promises[p] == (if !s.promises[p].Open? then s.promises[p]
                                 else if checked.Some? then Resolved(checked.value) else Rejected)
            && (forall q: nat :: q < |s.promises| && q != p ==> t.promises[q] == s.promises[q])
            && t.cached == (if checked.Some? then checked else s.cached)
            && t.receiving == s.receiving[..task] + s.receiving[task + 1..]
            && t.initialization == s.initialization && t.initializeCalls == s.initializeCalls
            && (s.pending == Some(p) ==> t.pending == None)
            && (s.pending != Some(p) ==> t.pending == s.pending && t.promises == s.promises)
  {
  }

  /** The cache serves a credential exactly when no fresh one is asked for and a minute's margin is left. */
  lemma ServedWithMargin(s: State, isFresh: bool, now: nat, c: Credential)
    ensures FromCache(s, isFresh, now) == Some(c) <==> !isFresh && s.cached == Some(c) && c.expiresAt - 60 > now
  {
  }

  /** The moments of a run, from the first. */
  function Course(events: seq<Event>): (course: seq<Moment>)
    ensures |course| == |events| + 1
  {
    if events == [] then [Moment(INITIAL, [])]
    else
      var n := |events| - 1;
      var before := Course(events[..n]);
      before + [Step(before[n], events[n])]
  }

  ghost predicate AllSound(course: seq<Moment>) {
    && (forall n :: 0 <= n < |course| ==> Sound(course[n]))
    && forall m, n :: 0 <= m <= n < |course| ==>
         SettledStay(course[m].bridge.promises, course[n].bridge.promises)
  }

  lemma AllSoundSnoc(course: seq<Moment>, m: Moment)
    requires course != [] && AllSound(course) && Sound(m)
    requires SettledStay(course[|course| - 1].bridge.promises, m.bridge.promises)
    ensures AllSound(course + [m])
  {
    hide Sound;
    var more := course + [m];
    forall i, n | 0 <= i <= n < |more|
      ensures SettledStay(more[i].bridge.promises, more[n].bridge.promises)
    {
      if i < |course| && n == |course| {
        assert SettledStay(course[i].bridge.promises, course[|course| - 1].bridge.promises);
      }
    }
  }

  /**
   In every run, events in any order: at every moment at most one promise is open,
   the pending one; a settled promise never changes; the provider was initialized at
   most once; and every credential served from the cache had more than a minute left.
   */
  lemma {:induction false} RunIsSound(events: seq<Event>)
    ensures AllSound(Course(events))
  {
    if events != [] {
      hide Sound, SettledStay, Step;
      var n := |events| - 1;
      RunIsSound(events[..n]);
      var before := Course(events[..n]);
      StepKeeps(before[n], events[n]);
      AllSoundSnoc(before, Step(before[n], events[n]));
    }
  }

  /** Where a run ends. */
  function Last(events: seq<Event>): Moment {
    Course(events)[|events|]
  }

  lemma LastSnoc(events: seq<Event>, e: Event)
    ensures Last(events + [e]) == Step(Last(events), e)
  {
    hide Step;
    assert (events + [e])[..|events|] == events;
  }

  lemma LastFive(a: Event, b: Event, c: Event, d: Event, e: Event)
    ensures Last([a, b, c, d, e]) == Step(Step(Step(Step(Step(Moment(INITIAL, []), a), b), c), d), e)
  {
    assert Last([]) == Moment(INITIAL, []);
    hide Last, Step;
    LastSnoc([], a);
    LastSnoc([a], b);
    LastSnoc([a, b], c);
    LastSnoc([a, b, c], d);
    LastSnoc([a, b, c, d], e);
    assert [] + [a] == [a] && [a] + [b] == [a, b] && [a, b] + [c] == [a, b, c];
    assert [a, b, c] + [d] == [a, b, c, d] && [a, b, c, d] + [e] == [a, b, c, d, e];
  }

  lemma Prompting(now: nat)
    ensures Step(Step(Step(Moment(INITIAL, []), Request(false, now)), Loaded(true, true)), Ask(Shown))
         == Moment(State(Ready, 1, Some(0), None, [Open], []), [])
  {
    var m := Step(Moment(INITIAL, []), Request(false, now));
    assert m == Moment(INITIAL.(initialization := Loading), []);
    assert Step(m, Loaded(true, true)) == Moment(State(Ready, 1, None, None, [], []), []);
  }

  lemma Answered(c: Credential)
    ensures Step(Step(Moment(State(Ready, 1, Some(0), None, [Open], []), []), Callback), Checked(0, Some(c)))
         == Moment(State(Ready, 1, None, Some(c), [Resolved(c)], []), [])
  {
    var m := Step(Moment(State(Ready, 1, Some(0), None, [Open], []), []), Callback);
    assert m == Moment(State(Ready, 1, Some(0), None, [Open], [0]), []);
    var one: seq<nat> := [0];
    assert one[..0] == [] && one[1..] == [];
  }

  /** A run that signs in: one prompt, answered with a credential, which the cache then serves. */
  lemma SignIn(c: Credential, now: nat)
    requires c.expiresAt > now + 60
    ensures var signedIn := Last([Request(false, now), Loaded(true, true), Ask(Shown), Callback, Checked(0, Some(c))]);
            && signedIn == Moment(State(Ready, 1, None, Some(c), [Resolved(c)], []), [])
            && Step(signedIn, Request(false, now)).served == [Served(c, now)]
            && Step(signedIn, Request(true, now)) == Moment(State(Ready, 1, None, None, [Resolved(c)], []), [])
  {
    hide Last;
    LastFive(Request(false, now), Loaded(true, true), Ask(Shown), Callback, Checked(0, Some(c)));
    Prompting(now);
    Answered(c);
  }

  // ---- The class

  class Bridge {
    var initialization: Initialization
    var initializeCalls: nat
    var pending: Option<nat>
    var cached: Option<Credential>
    var promises: seq<Promise>
    var receiving: seq<nat>

    constructor ()
      ensures Now() == INITIAL
    {
      initialization, initializeCalls, pending, cached := NotStarted, 0, None, None;
      promises, receiving := [], [];
    }

    function Now(): State
      reads this
    {
      State(initialization, initializeCalls, pending, cached, promises, receiving)
    }

    method GetCredential(isFresh: bool, now: nat) returns (served: Option<Credential>)
      modifies this`cached, this`initialization
      ensures served == old(FromCache(Now(), isFresh, now))
      ensures Now() == if served.Some? then old(Now()) else Requested(old(Now()), isFresh)
      ensures served.Some? <==> !isFresh && old(cached).Some? && old(cached).value.expiresAt > now + 60
      ensures served.Some? ==> served == old(cached) == cached && initialization == old(initialization)
      ensures served == None ==>
                && cached == (if isFresh then None else old(cached))
                && (old(initialization) == NotStarted ==> initialization == Loading)
                && (old(initialization) != NotStarted ==> initialization == old(initialization))
    {
      if !isFresh && cached.Some? && cached.value.expiresAt > now + CACHED_TOKEN_MARGIN_SECONDS {
        return cached;
      }
      if isFresh {
        cached := None;
      }
      if initialization == NotStarted {
        initialization := Loading;
      }
      return None;
    }

    method FinishInitialization(loaded: bool, taken: bool)
      requires initialization == Loading
      modifies this`initialization, this`initializeCalls
      ensures Now() == Initialized(old(Now()), loaded, taken)
      ensures initialization == if loaded && taken then Ready else Broken
      ensures initializeCalls == old(initializeCalls) + if loaded then 1 else 0
    {
      if loaded {
        initializeCalls := initializeCalls + 1;
      }
      initialization := if loaded && taken then Ready else Broken;
    }

    /** The promise of the prompt that is pending, or of a new one. */
    method Prompt(display: Display) returns (p: nat)
      requires Valid(Now()) && initialization == Ready
      modifies this`pending, this`promises
      ensures Now() == Prompted(old(Now()), display)
      ensures p == if old(pending).Some? then old(pending).value else |old(promises)|
      ensures p < |promises| && (promises[p].Open? ==> pending == Some(p))
      ensures old(pending).Some? ==> pending == old(pending) && promises == old(promises)
      ensures old(pending) == None ==>
                && promises == old(promises) + [if display == Shown then Open else Rejected]
                && pending == if display == Shown then Some(p) else None
    {
      assert display.Shown? || display.DismissedAtOnce? || display.Throws?;
      if pending.Some? {
        return pending.value;
      }
      p := |promises|;
      promises := promises + [Open];
      pending := Some(p);
      if !display.Shown? {
        Dismiss(p);
      }
    }

    method Dismiss(p: nat)
      requires p < |promises|
      modifies this`pending, this`promises
      ensures Now() == Dismissed(old(Now()), p)
      ensures promises == old(promises)[p := if old(promises)[p].Open? then Rejected else old(promises)[p]]
      ensures pending == if old(pending) == Some(p) then None else old(pending)
    {
      if pending == Some(p) {
        pending := None;
      }
      Settle(p, Rejected);
    }

    method Settle(p: nat, outcome: Promise)
      requires p < |promises| && !outcome.Open?
      modifies this`promises
      ensures promises == SettledAt(old(promises), p, outcome)
      ensures promises == old(promises)[p := if old(promises)[p].Open? then outcome else old(promises)[p]]
    {
      if promises[p].Open? {
        promises := promises[p := outcome];
      }
    }

    method ReceiveCredential()
      modifies this`receiving
      ensures Now() == CallbackCame(old(Now()))
      ensures receiving == old(receiving) + if pending.Some? then [pending.value] else []
    {
      if pending.Some? {
        receiving := receiving + [pending.value];
      }
    }

    method FinishReceive(task: nat, checked: Option<Credential>)
      requires Valid(Now()) && task < |receiving|
      modifies this`pending, this`promises, this`cached, this`receiving
      ensures Valid(Now()) && Now() == CallbackChecked(old(Now()), task, checked)
      ensures var p := old(receiving[task]);
              && promises == old(promises)[p := if !old(promises)[p].Open? then old(promises)[p]
                                                else if checked.Some? then Resolved(checked.value) else Rejected]
              && cached == (if checked.Some? then checked else old(cached))
              && receiving == old(receiving)[..task] + old(receiving)[task + 1..]
              && (old(pending) == Some(p) ==> pending == None)
              && (old(pending) != Some(p) ==> pending == old(pending) && promises == old(promises))
    {
      CheckedSettlesItsOwn(Now(), task, checked);
      var p := receiving[task];
      receiving := receiving[..task] + receiving[task + 1..];
      if checked.Some? {
        cached := checked;
        Settle(p, Resolved(checked.value));
      } else {
        Settle(p, Rejected);
      }
      if pending == Some(p) {
        pending := None;
      }
    }
  }

  /** One event on the class is one step. */
  method Handle(bridge: Bridge, e: Event, served: seq<Served>) returns (more: seq<Served>)
    requires Sound(Moment(bridge.Now(), served))
    modifies bridge
    ensures Moment(bridge.Now(), more) == Step(old(Moment(bridge.Now(), served)), e)
  {
    more := served;
    match e {
      case Request(isFresh, now) =>
        var credential := bridge.GetCredential(isFresh, now);
        if credential.Some? {
          more := served + [Served(credential.value, now)];
        }
      case Loaded(loaded, taken) =>
        if bridge.initialization == Loading {
          bridge.FinishInitialization(loaded, taken);
        }
      case Ask(display) =>
        if bridge.initialization == Ready {
          var _ := bridge.Prompt(display);
        }
      case Dismissal(promise) =>
        if promise < |bridge.promises| {
          bridge.Dismiss(promise);
        }
      case Callback => bridge.ReceiveCredential();
      case Checked(task, result) =>
        if task < |bridge.receiving| {
          bridge.FinishReceive(task, result);
        }
    }
  }

  /** A whole run: the moments it passes through are exactly the events' steps, and all are sound. */
  method HandleAll(events: seq<Event>) returns (course: seq<Moment>)
    ensures course == Course(events) && AllSound(course)
  {
    hide Sound, SettledStay, Step;
    var bridge := new Bridge();
    var served: seq<Served> := [];
    course := [Moment(bridge.Now(), served)];
    for n := 0 to |events|
      invariant course == Course(events[..n]) && course[n] == Moment(bridge.Now(), served)
    {
      RunIsSound(events[..n]);
      served := Handle(bridge, events[n], served);
      assert events[..n + 1][..n] == events[..n];
      course := course + [Moment(bridge.Now(), served)];
    }
    assert events[..|events|] == events;
    RunIsSound(events);
  }
}
