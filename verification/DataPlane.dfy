/** The double-checked cache of token sources in databricks/sdk/data_plane.py. Each atomic action of a
    thread is one step, and threads interleave in any order. */
module DataPlane {
  import opened Common

  datatype Request = Request(endpoint: string, authDetails: string)

  /** A token source object. Its identity tells apart sources made for the same request. */
  datatype Source = Source(identity: nat, authDetails: string)

  function Key(q: Request): (key: string) {
    q.endpoint + ":" + q.authDetails
  }

  /** Where a thread is in its call. */
  datatype Stage =
    | Idle
    | Started(q: Request)
    | Waiting(q: Request)                   // the read without the lock found nothing
    | Holding(q: Request)                   // has the lock, has not read again
    | Creating(q: Request)                  // has the lock, found nothing again
    | Installing(q: Request, s: Source)     // has the lock and a new source
    | Leaving(q: Request, s: Source)        // has the lock and the source to use
    | Ready(q: Request, s: Source)

  /** The shared dictionary and lock, the stage of every thread, and history: the entries written to the
      dictionary, and the sources asked for a token. */
  datatype World = World(sources: map<string, Source>, lock: Option<nat>, threads: map<nat, Stage>, created: nat,
                         installs: seq<(string, Source)>, uses: seq<(Request, Source)>)

  /** What thread `t` does next. Only a call that begins involves a choice, that of its arguments. */
  datatype Step = Begin(t: nat, q: Request) | Go(t: nat)

  function StageOf(w: World, t: nat): Stage {
    if t in w.threads then w.threads[t] else Idle
  }

  predicate Enabled(w: World, step: Step) {
    match step
    case Begin(t, _) => StageOf(w, t).Idle?
    case Go(t) => !StageOf(w, t).Idle? && (StageOf(w, t).Waiting? ==> w.lock.None?)
  }

  function Next(w: World, step: Step): World
    requires Enabled(w, step)
  {
    match step
    case Begin(t, q) => w.(threads := w.threads[t := Started(q)])
    case Go(t) =>
      match StageOf(w, t)
      case Idle => w
      case Started(q) =>
        var stage := if Key(q) in w.sources then Ready(q, w.sources[Key(q)]) else Waiting(q);
        w.(threads := w.threads[t := stage])
      case Waiting(q) =>
        w.(threads := w.threads[t := Holding(q)], lock := Some(t))
      case Holding(q) =>
        var stage := if Key(q) in w.sources then Leaving(q, w.sources[Key(q)]) else Creating(q);
        w.(threads := w.threads[t := stage])
      case Creating(q) =>
        w.(threads := w.threads[t := Installing(q, Source(w.created, q.authDetails))], created := w.created + 1)
      case Installing(q, s) =>
        w.(threads := w.threads[t := Leaving(q, s)], sources := w.sources[Key(q) := s],
           installs := w.installs + [(Key(q), s)])
      case Leaving(q, s) =>
        w.(threads := w.threads[t := Ready(q, s)], lock := None)
      case Ready(q, s) =>
        w.(threads := w.threads[t := Idle], uses := w.uses + [(q, s)])
  }

  const EMPTY := World(map[], None, map[], 0, [], [])

  ghost predicate Possible(w: World, steps: seq<Step>)
    decreases |steps|
  {
    steps == [] || (Enabled(w, steps[0]) && Possible(Next(w, steps[0]), steps[1..]))
  }

  ghost function Run(w: World, steps: seq<Step>): World
    requires Possible(w, steps)
    decreases |steps|
  {
    if steps == [] then w else Run(Next(w, steps[0]), steps[1..])
  }

  predicate InLock(stage: Stage) {
    stage.Holding? || stage.Creating? || stage.Installing? || stage.Leaving?
  }

  /** What a thread at some stage knows of the dictionary. */
  ghost predicate Knows(w: World, stage: Stage) {
    match stage
    case Creating(q) => Key(q) !in w.sources
    case Installing(q, s) => Key(q) !in w.sources && s.identity < w.created && s.authDetails == q.authDetails
                             && forall k <- w.sources :: w.sources[k].identity != s.identity
    case Leaving(q, s) => Key(q) in w.sources && w.sources[Key(q)] == s
    case Ready(q, s) => Key(q) in w.sources && w.sources[Key(q)] == s
    case _ => true
  }

  /** One thread at a time is inside the lock. */
  ghost predicate Exclusive(w: World) {
    && (forall t <- w.threads :: InLock(w.threads[t]) <==> w.lock == Some(t))
    && (w.lock.Some? ==> w.lock.value in w.threads)
  }

  ghost predicate Distinct(w: World) {
    && (forall k <- w.sources :: w.sources[k].identity < w.created)
    && (forall k, k' | k in w.sources && k' in w.sources && k != k' ::
          w.sources[k].identity != w.sources[k'].identity)
  }

  /** All threads are right about the dictionary, every source was installed once under its own key, and
      every source used is the one in the dictionary. */
  ghost predicate Consistent(w: World) {
    && Exclusive(w)
    && (forall t <- w.threads :: Knows(w, w.threads[t]))
    && Recorded(w.sources, w.installs, w.uses)
    && Distinct(w)
    && Thrifty(w)
  }

  /** The thread in the lock has a source that it is about to install. */
  predicate Carrying(w: World) {
    w.lock.Some? && StageOf(w, w.lock.value).Installing?
  }

  /** Every source that was made has been installed, or is about to be. */
  ghost predicate Thrifty(w: World) {
    w.created == |w.installs| + if Carrying(w) then 1 else 0
  }

  /** The source is for the details of a request with this key. */
  ghost predicate For(s: Source, key: string) {
    exists q: Request :: q.endpoint + ":" + q.authDetails == key && q.authDetails == s.authDetails
  }

  /** The dictionary and its history agree. */
  ghost predicate Recorded(sources: map<string, Source>, installs: seq<(string, Source)>,
                           uses: seq<(Request, Source)>)
  {
    && (forall i :: 0 <= i < |installs| ==>
          installs[i].0 in sources && sources[installs[i].0] == installs[i].1 && For(installs[i].1, installs[i].0))
    && (forall k <- sources :: exists i :: 0 <= i < |installs| && installs[i].0 == k)
    && (forall i, j :: 0 <= i < j < |installs| ==> installs[i].0 != installs[j].0)
    && (forall i :: 0 <= i < |uses| ==> Key(uses[i].0) in sources && sources[Key(uses[i].0)] == uses[i].1)
  }

  /** No entry of the dictionary is ever changed or removed. */
  ghost predicate Extends(sources: map<string, Source>, sources': map<string, Source>) {
    forall k <- sources :: k in sources' && sources'[k] == sources[k]
  }

  lemma RecordedExtends(sources: map<string, Source>, installs: seq<(string, Source)>, uses: seq<(Request, Source)>,
                        key: string, s: Source)
    requires Recorded(sources, installs, uses) && key !in sources && For(s, key)
    ensures Recorded(sources[key := s], installs + [(key, s)], uses)
  {
    var installs', sources' := installs + [(key, s)], sources[key := s];
    forall k | k in sources'
      ensures exists i :: 0 <= i < |installs'| && installs'[i].0 == k
    {
      if k == key {
        assert installs'[|installs|].0 == k;
      } else {
        var i :| 0 <= i < |installs| && installs[i].0 == k;
        assert installs'[i].0 == k;
      }
    }
  }

  lemma RecordedUse(sources: map<string, Source>, installs: seq<(string, Source)>, uses: seq<(Request, Source)>,
                    q: Request, s: Source)
    requires Recorded(sources, installs, uses) && Key(q) in sources && sources[Key(q)] == s
    ensures Recorded(sources, installs, uses + [(q, s)])
  {
  }

  lemma StepIsExclusive(w: World, step: Step)
    requires Exclusive(w) && Enabled(w, step)
    ensures Exclusive(Next(w, step))
  {
  }

  /** A step of thread `t` leaves the others right: only the thread in the lock writes. */
  lemma StepIsInformed(w: World, step: Step)
    requires Exclusive(w) && Distinct(w) && Enabled(w, step)
    requires forall t <- w.threads :: Knows(w, w.threads[t])
    ensures forall t <- Next(w, step).threads :: Knows(Next(w, step), Next(w, step).threads[t])
    ensures Distinct(Next(w, step))
  {
  }

  lemma StepIsRecorded(w: World, step: Step)
    requires Recorded(w.sources, w.installs, w.uses) && Enabled(w, step) && Knows(w, StageOf(w, step.t))
    ensures Recorded(Next(w, step).sources, Next(w, step).installs, Next(w, step).uses)
    ensures Extends(w.sources, Next(w, step).sources)
  {
    hide Recorded;
    var stage := StageOf(w, step.t);
    if step.Go? && stage.Ready? {
      RecordedUse(w.sources, w.installs, w.uses, stage.q, stage.s);
    } else if step.Go? && stage.Installing? {
      assert stage.q.endpoint + ":" + stage.q.authDetails == Key(stage.q);
      assert For(stage.s, Key(stage.q));
      RecordedExtends(w.sources, w.installs, w.uses, Key(stage.q), stage.s);
    }
  }

  lemma StepIsThrifty(w: World, step: Step)
    requires Exclusive(w) && Thrifty(w) && Enabled(w, step)
    ensures Thrifty(Next(w, step))
  {
  }

  lemma StepIsConsistent(w: World, step: Step)
    requires Consistent(w) && Enabled(w, step)
    ensures Consistent(Next(w, step)) && Extends(w.sources, Next(w, step).sources)
  {
    assert Knows(w, StageOf(w, step.t));
    hide Recorded, Exclusive, Knows, Distinct, Thrifty, Extends, Next;
    StepIsExclusive(w, step);
    StepIsInformed(w, step);
    StepIsRecorded(w, step);
    StepIsThrifty(w, step);
  }

  lemma {:induction false} RunIsConsistent(w: World, steps: seq<Step>)
    requires Consistent(w) && Possible(w, steps)
    ensures Consistent(Run(w, steps)) && Extends(w.sources, Run(w, steps).sources)
    decreases |steps|
  {
    if steps != [] {
      StepIsConsistent(w, steps[0]);
      RunIsConsistent(Next(w, steps[0]), steps[1..]);
    }
  }

  /** Over every interleaving: a key is installed at most once, with a source for a request with it, and all
      callers with the same key have used the same source, even if they read the dictionary without the lock. */
  lemma OneSourcePerKey(steps: seq<Step>)
    requires Possible(EMPTY, steps)
    ensures var w := Run(EMPTY, steps);
            && (forall i, j :: 0 <= i < j < |w.installs| ==> w.installs[i].0 != w.installs[j].0)
            && (forall i :: 0 <= i < |w.installs| ==> For(w.installs[i].1, w.installs[i].0))
            && (forall i, j :: 0 <= i < |w.uses| && 0 <= j < |w.uses| ==>
                  (Key(w.uses[i].0) == Key(w.uses[j].0) <==> w.uses[i].1.identity == w.uses[j].1.identity))
  {
    RunIsConsistent(EMPTY, steps);
  }

  /** Over every interleaving no source is made in vain: all that were made are in the dictionary, each under
      its own key, except for one that the thread in the lock is about to put there. */
  lemma NoSourceInVain(steps: seq<Step>)
    requires Possible(EMPTY, steps)
    ensures var w := Run(EMPTY, steps);
            && w.created == |w.installs| + (if Carrying(w) then 1 else 0)
            && |w.installs| == |w.sources|
  {
    RunIsConsistent(EMPTY, steps);
    var w := Run(EMPTY, steps);
    InstallsAreKeys(w.sources, w.installs, w.uses);
  }

  lemma InstallsAreKeys(sources: map<string, Source>, installs: seq<(string, Source)>, uses: seq<(Request, Source)>)
    requires Recorded(sources, installs, uses)
    ensures |installs| == |sources|
  {
    assert forall k <- sources :: exists i :: 0 <= i < |installs| && installs[i].0 == k;
    DistinctKeys(installs, sources.Keys);
  }

  lemma {:induction false} DistinctKeys(installs: seq<(string, Source)>, keys: set<string>)
    requires forall i :: 0 <= i < |installs| ==> installs[i].0 in keys
    requires forall k <- keys :: exists i :: 0 <= i < |installs| && installs[i].0 == k
    requires forall i, j :: 0 <= i < j < |installs| ==> installs[i].0 != installs[j].0
    ensures |installs| == |keys|
  {
    if installs == [] {
      assert keys == {};
    } else {
      var last, others := installs[|installs| - 1], installs[..|installs| - 1];
      forall k <- keys - {last.0}
        ensures exists i :: 0 <= i < |others| && others[i].0 == k
      {
        var i :| 0 <= i < |installs| && installs[i].0 == k;
        assert others[i].0 == k;
      }
      DistinctKeys(others, keys - {last.0});
    }
  }

  /** How many steps of its own a thread is from the end of its call, at most. */
  function Rank(stage: Stage): nat {
    match stage
    case Idle => 0
    case Ready(_, _) => 1
    case Leaving(_, _) => 2
    case Installing(_, _) => 3
    case Creating(_) => 4
    case Holding(_) => 5
    case Waiting(_) => 6
    case Started(_) => 7
  }

  lemma GoingGetsCloser(w: World, t: nat)
    requires Enabled(w, Go(t))
    ensures Rank(StageOf(Next(w, Go(t)), t)) < Rank(StageOf(w, t))
    ensures forall u :: u != t ==> StageOf(Next(w, Go(t)), u) == StageOf(w, u)
  {
  }

  /** The lock never stops everyone: while some call is under way some thread can go on, and whoever goes on
      gets closer to the end of its call without holding up any other. */
  lemma SomeThreadCanGo(steps: seq<Step>, t: nat) returns (goer: nat)
    requires Possible(EMPTY, steps) && !StageOf(Run(EMPTY, steps), t).Idle?
    ensures var w := Run(EMPTY, steps);
            && Enabled(w, Go(goer))
            && Rank(StageOf(Next(w, Go(goer)), goer)) < Rank(StageOf(w, goer))
            && forall u :: u != goer ==> StageOf(Next(w, Go(goer)), u) == StageOf(w, u)
  {
    RunIsConsistent(EMPTY, steps);
    var w := Run(EMPTY, steps);
    goer := if w.lock.Some? then w.lock.value else t;
    assert w.lock.Some? ==> InLock(w.threads[goer]);
    hide Consistent, Next, Rank;
    GoingGetsCloser(w, goer);
  }

  /** Whatever happens later, a source once in the dictionary stays there. */
  lemma {:induction false} SourcesStay(steps: seq<Step>, more: seq<Step>)
    requires Possible(EMPTY, steps) && Possible(Run(EMPTY, steps), more)
    ensures Extends(Run(EMPTY, steps).sources, Run(Run(EMPTY, steps), more).sources)
  {
    RunIsConsistent(EMPTY, steps);
    RunIsConsistent(Run(EMPTY, steps), more);
  }

  /** Two requests share a key exactly when they are equal or a colon and some text move from one argument
      to the other. */
  lemma SharedKeys(p: Request, q: Request)
    ensures Key(p) == Key(q) <==> p == q || Shifts(p, q) || Shifts(q, p)
  {
    if Key(p) == Key(q) {
      if |p.endpoint| < |q.endpoint| {
        ShiftsIfLonger(p, q);
      } else if |q.endpoint| < |p.endpoint| {
        ShiftsIfLonger(q, p);
      } else {
        assert p.endpoint == Key(p)[..|p.endpoint|] == q.endpoint;
        assert p.authDetails == Key(p)[|p.endpoint| + 1..] == q.authDetails;
      }
    }
    if Shifts(p, q) {
      KeyOfShifted(p, q);
    }
    if Shifts(q, p) {
      KeyOfShifted(q, p);
    }
  }

  /** Distinct endpoints with distinct details can get one token source. */
  lemma KeysCanCollide()
    ensures Key(Request("a", "b:c")) == Key(Request("a:b", "c")) && Request("a", "b:c") != Request("a:b", "c")
  {
    var p, q := Request("a", "b:c"), Request("a:b", "c");
    assert Shifted(p, q, "b");
    SharedKeys(p, q);
    assert |p.endpoint| != |q.endpoint|;
  }

  /** The endpoint of q is that of p followed by a colon and a text with which p's details begin. */
  ghost predicate Shifts(p: Request, q: Request) {
    exists text: string :: Shifted(p, q, text)
  }

  ghost predicate Shifted(p: Request, q: Request, text: string) {
    q.endpoint == p.endpoint + ":" + text && p.authDetails == text + ":" + q.authDetails
  }

  lemma ShiftsIfLonger(p: Request, q: Request)
    requires Key(p) == Key(q) && |p.endpoint| < |q.endpoint|
    ensures Shifts(p, q)
  {
    var key, n, m := Key(p), |p.endpoint|, |q.endpoint|;
    var text := q.endpoint[n + 1..];
    assert p.endpoint == key[..n] && q.endpoint == key[..m];
    assert key[n] == ':' && key[m] == ':';
    assert p.authDetails == key[n + 1..] && q.authDetails == key[m + 1..];
    assert key[n + 1..] == key[n + 1..m] + [key[m]] + key[m + 1..];
    assert text == key[n + 1..m];
    assert q.endpoint == key[..n] + [key[n]] + key[n + 1..m];
    assert Shifted(p, q, text);
  }

  lemma KeyOfShifted(p: Request, q: Request)
    requires Shifts(p, q)
    ensures Key(p) == Key(q)
  {
    var text :| Shifted(p, q, text);
    assert Key(p) == p.endpoint + ":" + text + ":" + q.authDetails;
  }

  /** A single call that nothing interrupts, with the dictionary updated in place. */
  class DataPlaneTokenSource {
    var tokenSources: map<string, Source>
    var created: nat

    constructor ()
      ensures tokenSources == map[] && created == 0
    {
      tokenSources, created := map[], 0;
    }

    method GetSource(q: Request) returns (s: Source)
      modifies this
      ensures Key(q) in tokenSources && tokenSources[Key(q)] == s
      ensures Extends(old(tokenSources), tokenSources)
      ensures tokenSources.Keys == old(tokenSources.Keys) + {Key(q)}
      ensures Key(q) !in old(tokenSources) ==> s == Source(old(created), q.authDetails)
      ensures created == old(created) + if Key(q) in old(tokenSources) then 0 else 1
    {
      var key := Key(q);
      if key in tokenSources {
        return tokenSources[key];
      }
      if key !in tokenSources {
        tokenSources := tokenSources[key := Source(created, q.authDetails)];
        created := created + 1;
      }
      s := tokenSources[key];
    }
  }
}
