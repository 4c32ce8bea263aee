/** The refreshable token source of databricks/sdk/oauth.py. A call of token() holds the lock throughout;
    a background refresh takes the lock only to commit its result, at any later moment. Times are in
    microseconds. */
module TokenRefresh {
  import opened Common

  const SECOND: int := 1_000_000
  const MARGIN: int := 40 * SECOND

  datatype Token = Token(accessToken: string, expiry: Option<int>)

  datatype TokenState = Fresh | Stale | Expired

  predicate IsExpired(t: Token, now: int) {
    t.expiry.Some? && t.expiry.value - MARGIN < now
  }

  predicate IsValid(t: Token, now: int) {
    t.accessToken != "" && !IsExpired(t, now)
  }

  /** The state of a token, with the two clock readings that it takes to find out. */
  function StateOf(t: Token, staleDuration: int, now1: int, now2: int): TokenState {
    if !IsValid(t, now1) then Expired
    else if t.expiry.None? then Fresh
    else
      var lifespan := t.expiry.value - now2;
      if lifespan < 0 then Expired
      else if lifespan < staleDuration then Stale
      else Fresh
  }

  datatype Config = Config(disableAsync: bool, staleDuration: int)

  /** The clock readings of one call: two for each time the token state is looked at. */
  datatype Readings = Readings(a1: int, a2: int, b1: int, b2: int) {
    predicate Ordered() {
      a1 <= a2 <= b1 <= b2
    }
  }

  /** A background refresh on its way: the number of those submitted before it, and the token that it was
      started to replace, with that token's serial number. */
  datatype Submission = Submission(number: nat, base: Token, serial: nat)

  /** The fields of the token source, followed by history: the background refreshes that are submitted
      but not committed, how many were ever submitted, the blocking calls that found the flag set and
      cleared it, the refreshes performed inside calls, and the serial number of the token, which is the
      number of tokens that refreshes have put in place. */
  datatype World = World(token: Token, isRefreshing: bool, refreshErr: bool, pending: seq<Submission>,
                         submitted: nat, resets: nat, blockingRefreshes: nat, serial: nat)

  /** A call, with what refresh() gives if it comes to that (nothing if it raises), or one of the pending
      background refreshes committing its result. */
  datatype Event = Call(readings: Readings, refreshed: Option<Token>) | Commit(i: nat, result: Option<Token>)

  datatype Reply = Reply(world: World, answer: Option<Token>)

  function BlockingToken(c: Config, w: World, now1: int, now2: int, refreshed: Option<Token>): Reply {
    var w1 := w.(refreshErr := false, isRefreshing := false, resets := w.resets + if w.isRefreshing then 1 else 0);
    if StateOf(w.token, c.staleDuration, now1, now2) != Expired then
      Reply(w1, Some(w.token))
    else
      var w2 := w1.(blockingRefreshes := w1.blockingRefreshes + 1);
      if refreshed.None? then Reply(w2, None)
      else Reply(w2.(token := refreshed.value, serial := w.serial + 1), refreshed)
  }

  function TriggerAsyncRefresh(c: Config, w: World, now1: int, now2: int): World {
    if StateOf(w.token, c.staleDuration, now1, now2) == Fresh then w
    else if !w.isRefreshing && !w.refreshErr then
      w.(isRefreshing := true, pending := w.pending + [Submission(w.submitted, w.token, w.serial)],
         submitted := w.submitted + 1)
    else w
  }

  function CallToken(c: Config, w: World, r: Readings, refreshed: Option<Token>): Reply {
    if c.disableAsync then
      BlockingToken(c, w, r.a1, r.a2, refreshed)
    else
      match StateOf(w.token, c.staleDuration, r.a1, r.a2)
      case Fresh => Reply(w, Some(w.token))
      case Stale => Reply(TriggerAsyncRefresh(c, w, r.b1, r.b2), Some(w.token))
      case Expired => BlockingToken(c, w, r.b1, r.b2, refreshed)
  }

  function Without(pending: seq<Submission>, i: nat): seq<Submission>
    requires i < |pending|
  {
    pending[..i] + pending[i + 1..]
  }

  function CommitRefresh(w: World, i: nat, result: Option<Token>): World
    requires i < |w.pending|
  {
    var w1 := w.(isRefreshing := false, pending := Without(w.pending, i));
    if result.Some? then w1.(token := result.value, serial := w.serial + 1) else w1.(refreshErr := true)
  }

  predicate Enabled(w: World, e: Event) {
    match e
    case Call(r, _) => r.Ordered()
    case Commit(i, _) => i < |w.pending|
  }

  function Step(c: Config, w: World, e: Event): Reply
    requires Enabled(w, e)
  {
    match e
    case Call(r, refreshed) => CallToken(c, w, r, refreshed)
    case Commit(i, result) => Reply(CommitRefresh(w, i, result), None)
  }

  function Start(token: Token): World {
    World(token, false, false, [], 0, 0, 0, 0)
  }

  /** The object itself, with its fields updated in place. */
  class Refreshable {
    const config: Config
    var token: Token
    var isRefreshing: bool
    var refreshErr: bool
    ghost var pending: seq<Submission>
    ghost var submitted: nat
    ghost var resets: nat
    ghost var blockingRefreshes: nat
    ghost var serial: nat

    ghost function View(): World
      reads this
    {
      World(token, isRefreshing, refreshErr, pending, submitted, resets, blockingRefreshes, serial)
    }

    constructor (token: Option<Token>, config: Config)
      ensures this.config == config
      ensures View() == Start(if token.Some? then token.value else Token("", None))
    {
      var initial := if token.Some? then token.value else Token.Token("", None);
      this.config, this.token, isRefreshing, refreshErr := config, initial, false, false;
      pending, submitted, resets, blockingRefreshes, serial := [], 0, 0, 0, 0;
    }

    /** token(): the answer is missing if refresh() raised. */
    method GetToken(r: Readings, refreshed: Option<Token>) returns (answer: Option<Token>)
      modifies this
      ensures Reply(View(), answer) == CallToken(config, old(View()), r, refreshed)
    {
      if config.disableAsync {
        answer := Blocking(r.a1, r.a2, refreshed);
      } else {
        answer := Async(r, refreshed);
      }
    }

    method Async(r: Readings, refreshed: Option<Token>) returns (answer: Option<Token>)
      requires !config.disableAsync
      modifies this
      ensures Reply(View(), answer) == CallToken(config, old(View()), r, refreshed)
    {
      var state := StateOf(token, config.staleDuration, r.a1, r.a2);
      answer := Some(token);
      if state == Stale {
        Trigger(r.b1, r.b2);
      } else if state == Expired {
        answer := Blocking(r.b1, r.b2, refreshed);
      }
    }

    method Blocking(now1: int, now2: int, refreshed: Option<Token>) returns (answer: Option<Token>)
      modifies this
      ensures Reply(View(), answer) == BlockingToken(config, old(View()), now1, now2, refreshed)
    {
      var state := StateOf(token, config.staleDuration, now1, now2);
      resets := resets + if isRefreshing then 1 else 0;
      refreshErr := false;
      isRefreshing := false;
      if state != Expired {
        return Some(token);
      }
      blockingRefreshes := blockingRefreshes + 1;
      if refreshed.None? {
        return None;
      }
      token, serial := refreshed.value, serial + 1;
      return Some(token);
    }

    method Trigger(now1: int, now2: int)
      modifies this
      ensures View() == TriggerAsyncRefresh(config, old(View()), now1, now2)
    {
      if StateOf(token, config.staleDuration, now1, now2) == Fresh {
        return;
      }
      if !isRefreshing && !refreshErr {
        isRefreshing := true;
        pending, submitted := pending + [Submission(submitted, token, serial)], submitted + 1;
      }
    }

    /** The part of a background refresh that runs under the lock. */
    method CommitBackground(ghost i: nat, result: Option<Token>)
      requires i < |pending|
      modifies this
      ensures View() == CommitRefresh(old(View()), i, result)
    {
      if result.Some? {
        token, serial := result.value, serial + 1;
      } else {
        refreshErr := true;
      }
      isRefreshing := false;
      pending := Without(pending, i);
    }
  }

  // ---------- Runs ----------

  ghost predicate Possible(c: Config, w: World, events: seq<Event>)
    decreases |events|
  {
    events == [] || (Enabled(w, events[0]) && Possible(c, Step(c, w, events[0]).world, events[1..]))
  }

  /** The world after a sequence of events, in whatever order threads and background refreshes came. */
  ghost function Run(c: Config, w: World, events: seq<Event>): World
    requires Possible(c, w, events)
    decreases |events|
  {
    if events == [] then w else Run(c, Step(c, w, events[0]).world, events[1..])
  }

  lemma {:induction false} RunOfSum(c: Config, w: World, events: seq<Event>, more: seq<Event>)
    ensures Possible(c, w, events + more) <==> Possible(c, w, events) && Possible(c, Run(c, w, events), more)
    ensures Possible(c, w, events + more) ==> Run(c, w, events + more) == Run(c, Run(c, w, events), more)
    decreases |events|
  {
    if events == [] {
      assert events + more == more;
    } else {
      assert (events + more)[1..] == events[1..] + more;
      if Enabled(w, events[0]) {
        RunOfSum(c, Step(c, w, events[0]).world, events[1..], more);
      }
    }
  }

  /** The flag stands for a background refresh that will commit, and there are more of those only for calls
      that cleared the flag early. */
  ghost predicate Counted(w: World) {
    && (w.isRefreshing ==> w.pending != [])
    && |w.pending| <= (if w.isRefreshing then 1 else 0) + w.resets
  }

  /** A refresh on its way was started for the token in place, unless another one has come in since. */
  ghost predicate Based(w: World) {
    forall p <- w.pending ::
      p.number < w.submitted && p.serial <= w.serial && (p.serial == w.serial ==> p.base == w.token)
  }

  ghost predicate Numbered(w: World) {
    forall i, j :: 0 <= i < j < |w.pending| ==> w.pending[i].number < w.pending[j].number
  }

  /** Without a call that clears the flag early, a refresh on its way was started for the token in place. */
  ghost predicate Current(w: World) {
    w.resets == 0 ==> forall p <- w.pending :: p.serial == w.serial
  }

  ghost predicate Consistent(w: World) {
    Counted(w) && Based(w) && Numbered(w) && Current(w)
  }

  lemma StepIsCounted(c: Config, w: World, e: Event)
    requires Counted(w) && Enabled(w, e)
    ensures Counted(Step(c, w, e).world)
    ensures Step(c, w, e).world.resets == w.resets + if Blocks(c, w, e) && w.isRefreshing then 1 else 0
    ensures w.serial <= Step(c, w, e).world.serial <= w.serial + 1
  {
  }

  lemma StepIsBased(c: Config, w: World, e: Event)
    requires Based(w) && Enabled(w, e)
    ensures Based(Step(c, w, e).world)
  {
    hide StateOf;
  }

  lemma StepIsNumbered(c: Config, w: World, e: Event)
    requires Based(w) && Numbered(w) && Enabled(w, e)
    ensures Numbered(Step(c, w, e).world)
  {
    hide StateOf;
  }

  lemma StepIsCurrent(c: Config, w: World, e: Event)
    requires Counted(w) && Current(w) && Enabled(w, e)
    ensures Current(Step(c, w, e).world)
  {
    if e.Commit? && w.resets == 0 {
      assert Step(c, w, e).world.pending == [];
    }
  }

  lemma StepIsConsistent(c: Config, w: World, e: Event)
    requires Consistent(w) && Enabled(w, e)
    ensures Consistent(Step(c, w, e).world)
    ensures Step(c, w, e).world.resets == w.resets + if Blocks(c, w, e) && w.isRefreshing then 1 else 0
    ensures w.serial <= Step(c, w, e).world.serial <= w.serial + 1
  {
    hide Step, Counted, Based, Numbered, Current, Blocks;
    StepIsCounted(c, w, e);
    StepIsBased(c, w, e);
    StepIsNumbered(c, w, e);
    StepIsCurrent(c, w, e);
  }

  lemma {:induction false} RunsAreConsistent(c: Config, w: World, events: seq<Event>)
    requires Possible(c, w, events) && Consistent(w)
    ensures Consistent(Run(c, w, events))
    ensures Run(c, w, events).resets >= w.resets
    decreases |events|
  {
    if events != [] {
      StepIsConsistent(c, w, events[0]);
      RunsAreConsistent(c, Step(c, w, events[0]).world, events[1..]);
    }
  }

  /** A call submits a background refresh exactly if it finds the token stale, none is on its way as far as
      the flag tells, and none has failed; it does not wait for it, but hands out the stale token. */
  lemma SubmissionCondition(c: Config, w: World, r: Readings, refreshed: Option<Token>)
    requires r.Ordered()
    ensures var reply := CallToken(c, w, r, refreshed);
            if && !c.disableAsync && !w.isRefreshing && !w.refreshErr
               && StateOf(w.token, c.staleDuration, r.a1, r.a2) == Stale
               && StateOf(w.token, c.staleDuration, r.b1, r.b2) != Fresh
            then && reply.world.submitted == w.submitted + 1
                 && reply.world.pending == w.pending + [Submission(w.submitted, w.token, w.serial)]
                 && reply.world.isRefreshing && reply.world.token == w.token && reply.answer == Some(w.token)
            else reply.world.submitted == w.submitted && reply.world.pending == w.pending
  {
  }

  /** Without a call that clears the flag early, at most one background refresh is on its way, it is so
      exactly while the flag is set, and it replaces the very token that made it start. */
  lemma OneRefreshWithoutReset(c: Config, token: Token, events: seq<Event>)
    requires Possible(c, Start(token), events)
    requires Run(c, Start(token), events).resets == 0
    ensures var w := Run(c, Start(token), events);
            && |w.pending| <= 1
            && (w.pending != [] <==> w.isRefreshing)
            && (w.pending != [] ==> w.pending[0].serial == w.serial && w.pending[0].base == w.token)
  {
    RunsAreConsistent(c, Start(token), events);
  }

  /** When a call makes refreshes overlap: one is on its way, its flag has been cleared, and the call finds
      the token stale. */
  lemma OverlapCondition(c: Config, w: World, r: Readings, refreshed: Option<Token>)
    requires Consistent(w) && |w.pending| <= 1 && r.Ordered()
    ensures |CallToken(c, w, r, refreshed).world.pending| >= 2
            <==> && w.pending != [] && !w.isRefreshing && !w.refreshErr && !c.disableAsync
                 && StateOf(w.token, c.staleDuration, r.a1, r.a2) == Stale
                 && StateOf(w.token, c.staleDuration, r.b1, r.b2) != Fresh
    ensures |CallToken(c, w, r, refreshed).world.pending| >= 2 ==> w.resets >= 1
  {
  }

  // ---------- What a commit replaces ----------

  /** The event puts a new token in place: a refresh inside a call, or a commit, has succeeded. */
  predicate Stores(c: Config, w: World, e: Event)
    requires Enabled(w, e)
  {
    match e
    case Call(_, refreshed) =>
      refreshed.Some? && CallToken(c, w, e.readings, refreshed).world.blockingRefreshes > w.blockingRefreshes
    case Commit(_, result) => result.Some?
  }

  function Stored(e: Event): Option<Token> {
    match e
    case Call(_, refreshed) => refreshed
    case Commit(_, result) => result
  }

  /** The token that the last such event of a run puts in place, if there is any. */
  ghost function LastStored(c: Config, w: World, events: seq<Event>): Option<Token>
    requires Possible(c, w, events)
    decreases |events|
  {
    if events == [] then None
    else
      var later := LastStored(c, Step(c, w, events[0]).world, events[1..]);
      if later.Some? then later
      else if Stores(c, w, events[0]) then Stored(events[0])
      else None
  }

  lemma StoreCondition(c: Config, w: World, e: Event)
    requires Enabled(w, e)
    ensures var w' := Step(c, w, e).world;
            if Stores(c, w, e) then w'.serial == w.serial + 1 && Stored(e) == Some(w'.token)
            else w'.serial == w.serial && w'.token == w.token
  {
  }

  lemma {:induction false} SerialCountsStores(c: Config, w: World, events: seq<Event>)
    requires Possible(c, w, events)
    ensures var last := LastStored(c, w, events);
            var w' := Run(c, w, events);
            if last.Some? then w'.serial > w.serial && w'.token == last.value
            else w'.serial == w.serial && w'.token == w.token
    decreases |events|
  {
    if events != [] {
      StoreCondition(c, w, events[0]);
      SerialCountsStores(c, Step(c, w, events[0]).world, events[1..]);
    }
  }

  /** A background refresh keeps what it was started for. */
  lemma {:induction false} SubmissionsStay(c: Config, w: World, events: seq<Event>, p: Submission)
    requires Possible(c, w, events) && Consistent(w)
    requires p in Run(c, w, events).pending && p.number < w.submitted
    ensures p in w.pending
    decreases |events|
  {
    if events != [] {
      var w' := Step(c, w, events[0]).world;
      StepIsConsistent(c, w, events[0]);
      SubmissionsStay(c, w', events[1..], p);
      assert p in w'.pending;
    }
  }

  /** A commit replaces another token than the one its refresh was started for, exactly if a refresh inside
      a call or another commit has succeeded since: then it replaces what the last of those put in place. Here
      `submit` is the call that started the refresh, and p is what of it is still on its way. */
  lemma OverwriteCondition(c: Config, token: Token, before: seq<Event>, submit: Event, since: seq<Event>, p: Submission)
    requires Possible(c, Start(token), before + [submit] + since)
    requires Possible(c, Start(token), before)
    requires Enabled(Run(c, Start(token), before), submit)
    requires Step(c, Run(c, Start(token), before), submit).world.submitted == Run(c, Start(token), before).submitted + 1
    requires p.number == Run(c, Start(token), before).submitted
    requires p in Run(c, Start(token), before + [submit] + since).pending
    ensures var w := Run(c, Start(token), before);
            var w1 := Step(c, w, submit).world;
            var w2 := Run(c, Start(token), before + [submit] + since);
            && p.base == w.token
            && Possible(c, w1, since)
            && (w2.serial != p.serial <==> LastStored(c, w1, since).Some?)
            && w2.token == if LastStored(c, w1, since).Some? then LastStored(c, w1, since).value else p.base
  {
    var w := Run(c, Start(token), before);
    var w1 := Step(c, w, submit).world;
    RunOfSum(c, Start(token), before, [submit] + since);
    assert before + [submit] + since == before + ([submit] + since);
    Replay(c, w, submit, since);
    RunsAreConsistent(c, Start(token), before);
    StepIsConsistent(c, w, submit);
    SubmissionsStay(c, w1, since, p);
    TheSubmission(c, w, submit, p);
    SerialCountsStores(c, w1, since);
  }

  lemma TheSubmission(c: Config, w: World, submit: Event, p: Submission)
    requires Consistent(w) && Enabled(w, submit)
    requires var w1 := Step(c, w, submit).world; w1.submitted == w.submitted + 1 && p in w1.pending
    requires p.number == w.submitted
    ensures p == Submission(w.submitted, w.token, w.serial) && Step(c, w, submit).world.serial == w.serial
    ensures Step(c, w, submit).world.token == w.token
  {
  }

  /** No call finds the token expired while a background refresh is on its way. */
  ghost predicate NeverExpiresMeanwhile(c: Config, w: World, events: seq<Event>)
    requires Possible(c, w, events)
    decreases |events|
  {
    events == []
    || (&& (w.pending != [] ==> !Blocks(c, w, events[0]))
        && NeverExpiresMeanwhile(c, Step(c, w, events[0]).world, events[1..]))
  }

  /** The call gets to the blocking path. */
  ghost predicate Blocks(c: Config, w: World, e: Event) {
    e.Call? && (c.disableAsync || StateOf(w.token, c.staleDuration, e.readings.a1, e.readings.a2) == Expired)
  }

  lemma {:induction false} NoResetMeanwhile(c: Config, w: World, events: seq<Event>)
    requires Possible(c, w, events) && Consistent(w) && NeverExpiresMeanwhile(c, w, events)
    ensures Run(c, w, events).resets == w.resets
    decreases |events|
  {
    if events != [] {
      StepIsConsistent(c, w, events[0]);
      NoResetMeanwhile(c, Step(c, w, events[0]).world, events[1..]);
    }
  }

  /** What callers can see to: as long as none of them finds the token expired while a background refresh is
      on its way, refreshes do not overlap and each replaces the token it was started for. */
  lemma NothingOverwritten(c: Config, token: Token, events: seq<Event>)
    requires Possible(c, Start(token), events) && NeverExpiresMeanwhile(c, Start(token), events)
    ensures var w := Run(c, Start(token), events);
            && |w.pending| <= 1
            && forall p <- w.pending :: p.serial == w.serial && p.base == w.token
  {
    NoResetMeanwhile(c, Start(token), events);
    OneRefreshWithoutReset(c, token, events);
  }

  const T0 := Token("t0", Some(150 * SECOND))
  const T1 := Token("t1", Some(100 * SECOND))
  const T2 := Token("t2", Some(300 * SECOND))

  function CallAt(now: int, refreshed: Option<Token>): Event {
    Call(Readings(now, now, now, now), refreshed)
  }

  /** It takes no second background refresh to put an older token in place of a newer one: t1 turns stale and
      a refresh begins, t1 expires and a call fetches t2, and then the refresh commits t0. */
  lemma SlowRefreshRegresses()
    ensures var c := Config(false, 180 * SECOND);
            var events := [CallAt(0, None), CallAt(70 * SECOND, Some(T2))];
            && Possible(c, Start(T1), events + [Commit(0, Some(T0))])
            && Run(c, Start(T1), events).token == T2
            && Run(c, Start(T1), events + [Commit(0, Some(T0))]).token == T0
            && Run(c, Start(T1), events + [Commit(0, Some(T0))]).submitted == 1
            && T0.expiry.value < T2.expiry.value
  {
    var c := Config(false, 180 * SECOND);
    var e1, e2, e3 := CallAt(0, None), CallAt(70 * SECOND, Some(T2)), Commit(0, Some(T0));
    var w1 := Step(c, Start(T1), e1).world;
    var w2 := Step(c, w1, e2).world;
    Replay(c, w2, e3, []);
    Replay(c, w1, e2, [e3]);
    Replay(c, Start(T1), e1, [e2] + [e3]);
    Replay(c, w1, e2, []);
    Replay(c, Start(T1), e1, [e2]);
    assert [e1, e2] + [e3] == [e1] + ([e2] + [e3]) && [e1, e2] == [e1] + [e2];
    assert [e2] + [] == [e2] && [e3] + [] == [e3];
  }

  /** Refreshes do overlap: as above, but t2 turns stale before the first refresh commits. */
  lemma RefreshesOverlap()
    ensures var c := Config(false, 180 * SECOND);
            var events := [CallAt(0, None), CallAt(70 * SECOND, Some(T2)), CallAt(200 * SECOND, None)];
            Possible(c, Start(T1), events) && |Run(c, Start(T1), events).pending| == 2
  {
    var c := Config(false, 180 * SECOND);
    var e1, e2, e3 := CallAt(0, None), CallAt(70 * SECOND, Some(T2)), CallAt(200 * SECOND, None);
    var w1 := Step(c, Start(T1), e1).world;
    var w2 := Step(c, w1, e2).world;
    Replay(c, w2, e3, []);
    Replay(c, w1, e2, [e3]);
    Replay(c, Start(T1), e1, [e2] + [e3]);
    assert [e1, e2, e3] == [e1] + ([e2] + [e3]);
    assert [e3] + [] == [e3];
  }

  lemma Replay(c: Config, w: World, e: Event, rest: seq<Event>)
    requires Enabled(w, e)
    ensures Possible(c, w, [e] + rest) <==> Possible(c, Step(c, w, e).world, rest)
    ensures Possible(c, w, [e] + rest) ==> Run(c, w, [e] + rest) == Run(c, Step(c, w, e).world, rest)
  {
    assert ([e] + rest)[1..] == rest;
  }

  // ---------- The tokens handed out ----------

  /** No expiry, or at least 40 seconds of life left. */
  ghost predicate UsableAt(t: Token, now: int) {
    t.accessToken != "" && (t.expiry.Some? ==> t.expiry.value >= now + 40 * SECOND)
  }

  /** A token is expired if it is none, has less than 40 seconds to live or is past its expiry, and stale if it
      is not but has less than the given time to live. */
  lemma StateCondition(t: Token, staleDuration: int, now1: int, now2: int)
    requires now1 <= now2
    ensures StateOf(t, staleDuration, now1, now2) == Expired
            <==> !UsableAt(t, now1) || (t.expiry.Some? && t.expiry.value < now2)
    ensures StateOf(t, staleDuration, now1, now2) == Stale
            <==> UsableAt(t, now1) && t.expiry.Some? && now2 <= t.expiry.value < now2 + staleDuration
  {
  }

  /** Every token handed out comes from a refresh in the same call or was found usable in it. */
  lemma TokenSafety(c: Config, w: World, r: Readings, refreshed: Option<Token>)
    requires r.Ordered()
    ensures var reply := CallToken(c, w, r, refreshed);
            && (reply.answer.Some? ==>
                  || (refreshed == reply.answer && reply.world.blockingRefreshes == w.blockingRefreshes + 1)
                  || (reply.answer == Some(w.token) && UsableAt(w.token, r.a1)))
            && (reply.answer.None? <==>
                  refreshed.None? && reply.world.blockingRefreshes == w.blockingRefreshes + 1)
  {
  }

  /** Time does not bring a token back. */
  lemma ExpiredStaysExpired(t: Token, staleDuration: int, r: Readings)
    requires r.Ordered() && StateOf(t, staleDuration, r.a1, r.a2) == Expired
    ensures StateOf(t, staleDuration, r.b1, r.b2) == Expired
  {
  }

  /** Whatever went wrong before and whatever is still to commit, a call that finds the token expired
      clears both flags and refreshes the token itself. */
  lemma ExpiredTokenIsRefreshed(c: Config, w: World, r: Readings, refreshed: Option<Token>)
    requires r.Ordered() && StateOf(w.token, c.staleDuration, r.a1, r.a2) == Expired
    ensures var reply := CallToken(c, w, r, refreshed);
            && !reply.world.isRefreshing && !reply.world.refreshErr
            && reply.world.blockingRefreshes == w.blockingRefreshes + 1
            && reply.world.submitted == w.submitted && reply.world.pending == w.pending
            && reply.answer == refreshed
            && reply.world.token == if refreshed.Some? then refreshed.value else w.token
  {
    ExpiredStaysExpired(w.token, c.staleDuration, r);
  }

  ghost predicate NeverBlocks(c: Config, w: World, events: seq<Event>)
    requires Possible(c, w, events)
    decreases |events|
  {
    events == [] || (!Blocks(c, w, events[0]) && NeverBlocks(c, Step(c, w, events[0]).world, events[1..]))
  }

  lemma {:induction false} NoSubmissionWhileFailed(c: Config, w: World, events: seq<Event>)
    requires w.refreshErr && Possible(c, w, events) && NeverBlocks(c, w, events)
    ensures Run(c, w, events).submitted == w.submitted && Run(c, w, events).refreshErr
    decreases |events|
  {
    if events != [] {
      NoSubmissionWhileFailed(c, Step(c, w, events[0]).world, events[1..]);
    }
  }

  /** After a background refresh has failed no other is submitted until a call blocks, whatever else is on its
      way and comes in meanwhile. */
  lemma NoSubmissionAfterFailure(c: Config, w: World, i: nat, events: seq<Event>)
    requires Enabled(w, Commit(i, None)) && Possible(c, w, [Commit(i, None)] + events)
    requires Possible(c, Step(c, w, Commit(i, None)).world, events)
    requires NeverBlocks(c, Step(c, w, Commit(i, None)).world, events)
    ensures Run(c, w, [Commit(i, None)] + events).submitted == w.submitted
  {
    Replay(c, w, Commit(i, None), events);
    NoSubmissionWhileFailed(c, Step(c, w, Commit(i, None)).world, events);
  }

  /** What has happened since the last call that blocked: whether a refresh was submitted and none has come in
      after it, and whether one has come in that failed. */
  datatype Signs = Signs(submitted: bool, failed: bool)

  /** The call finds the token stale, and still when it looks again. */
  ghost predicate FindsStale(c: Config, w: World, r: Readings) {
    && !c.disableAsync
    && StateOf(w.token, c.staleDuration, r.a1, r.a2) == Stale
    && StateOf(w.token, c.staleDuration, r.b1, r.b2) != Fresh
  }

  ghost function NextSigns(c: Config, w: World, e: Event, s: Signs): Signs {
    match e
    case Commit(_, result) => Signs(false, s.failed || result.None?)
    case Call(r, _) =>
      if Blocks(c, w, e) then Signs(false, false)
      else if FindsStale(c, w, r) && s == Signs(false, false) then Signs(true, false)
      else s
  }

  ghost function SignsOf(c: Config, w: World, events: seq<Event>, s: Signs): Signs
    requires Possible(c, w, events)
    decreases |events|
  {
    if events == [] then s
    else SignsOf(c, Step(c, w, events[0]).world, events[1..], NextSigns(c, w, events[0], s))
  }

  lemma {:induction false} FlagsTellSigns(c: Config, w: World, events: seq<Event>)
    requires Possible(c, w, events)
    ensures var w', s := Run(c, w, events), SignsOf(c, w, events, Signs(w.isRefreshing, w.refreshErr));
            w'.isRefreshing == s.submitted && w'.refreshErr == s.failed
    decreases |events|
  {
    if events != [] {
      FlagsTellSigns(c, Step(c, w, events[0]).world, events[1..]);
    }
  }

  /** Over all interleavings: a call that finds the token stale submits a refresh exactly if, since the last
      call that blocked, none has failed and none was submitted after which none has come in. */
  lemma StaleTokenIsRefreshed(c: Config, token: Token, events: seq<Event>, r: Readings, refreshed: Option<Token>)
    requires Possible(c, Start(token), events) && r.Ordered()
    ensures var w := Run(c, Start(token), events);
            CallToken(c, w, r, refreshed).world.submitted
            == w.submitted
               + if FindsStale(c, w, r) && SignsOf(c, Start(token), events, Signs(false, false)) == Signs(false, false)
                 then 1 else 0
  {
    FlagsTellSigns(c, Start(token), events);
  }

  /** With background refreshes disabled none is ever submitted. */
  lemma {:induction false} NoSubmissionWhenDisabled(c: Config, w: World, events: seq<Event>)
    requires c.disableAsync && Possible(c, w, events)
    ensures Run(c, w, events).submitted == w.submitted
    decreases |events|
  {
    if events != [] {
      NoSubmissionWhenDisabled(c, Step(c, w, events[0]).world, events[1..]);
    }
  }

  ghost predicate AllCalls(events: seq<Event>) {
    forall e <- events :: e.Call? && e.readings.Ordered()
  }

  ghost predicate KeepsUsable(t: Token, events: seq<Event>) {
    forall e <- events :: e.Call? ==> UsableAt(t, e.readings.a2)
  }

  /** Calls that find a usable token do not refresh. */
  lemma {:induction false} UsableTokenIsKept(c: Config, w: World, events: seq<Event>)
    requires c.disableAsync && AllCalls(events) && KeepsUsable(w.token, events)
    ensures Possible(c, w, events)
    ensures Run(c, w, events).token == w.token && Run(c, w, events).blockingRefreshes == w.blockingRefreshes
    decreases |events|
  {
    if events != [] {
      assert events[0] in events;
      UsableTokenIsKept(c, Step(c, w, events[0]).world, events[1..]);
    }
  }

  /** A burst of callers that find one expired token triggers a single refresh, if its result is good for
      all of them. */
  lemma SingleRefresh(c: Config, w: World, first: Event, others: seq<Event>, fetched: Token)
    requires c.disableAsync && AllCalls([first] + others)
    requires StateOf(w.token, c.staleDuration, first.readings.a1, first.readings.a2) == Expired
    requires first.refreshed == Some(fetched) && KeepsUsable(fetched, others)
    ensures Possible(c, w, [first] + others)
    ensures var w' := Run(c, w, [first] + others);
            w'.blockingRefreshes == w.blockingRefreshes + 1 && w'.token == fetched
  {
    assert first in [first] + others;
    assert forall e <- others :: e in [first] + others;
    Replay(c, w, first, others);
    UsableTokenIsKept(c, Step(c, w, first).world, others);
  }
}
