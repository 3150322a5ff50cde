/**
 The states a run goes through, one by one, including those it only passes through inside a
 tick: which changes are possible, how often a side is selected, and how many changes there can be.
 */
module PlannerBypassing {
  import opened PlannerModel
  import opened PlannerRuns

  function PathOf(cfg: Config, p: Planner, e: Event): seq<NavigationState> {
    match e
    case Sense(input) => Update(cfg, p, input).path
    case Failure(reason, sensorFault) => [Failed(p, reason, sensorFault).state]
  }

  /** Every state of the first `n` calls, in the order the planner was set to them. */
  function Walk(cfg: Config, events: seq<Event>, n: nat): (w: seq<NavigationState>)
    requires n <= |events|
    ensures w != []
  {
    if n == 0 then [Waiting]
    else Walk(cfg, events, n - 1) + PathOf(cfg, StateAt(cfg, events, n - 1), events[n - 1])
  }

  function Last(w: seq<NavigationState>): NavigationState
    requires w != []
  {
    w[|w| - 1]
  }

  // ----- counting along a walk -----

  datatype Kind = Selections | Changes

  function Weight(kind: Kind, a: NavigationState, b: NavigationState): nat {
    match kind
    case Selections => if a.Evaluate? && b.ShiftOut? then 1 else 0
    case Changes => if a != b then 1 else 0
  }

  function Total(kind: Kind, w: seq<NavigationState>): nat {
    if |w| < 2 then 0 else Weight(kind, w[0], w[1]) + Total(kind, w[1..])
  }

  predicate Edge(a: NavigationState, b: NavigationState) {
    match b
    case Blocked => true
    case SensorFault => true
    case Waiting => false
    case Forward => a.Waiting? || a.ShiftBack? || a.Blocked? || a.SensorFault?
    case Evaluate => a.Forward?
    case ShiftOut => a.Evaluate?
    case PassObstacle => a.ShiftOut?
    case ShiftBack => a.PassObstacle?
    case Complete => a.Forward? || a.ShiftBack?
  }

  predicate Legal(w: seq<NavigationState>) {
    |w| < 2 || (Edge(w[0], w[1]) && Legal(w[1..]))
  }

  lemma {:induction false} TotalOfJoin(kind: Kind, w: seq<NavigationState>, v: seq<NavigationState>)
    requires w != []
    ensures Total(kind, w + v) == Total(kind, w) + Total(kind, [Last(w)] + v)
    ensures Legal(w) && Legal([Last(w)] + v) ==> Legal(w + v)
  {
    if |w| == 1 {
      assert w + v == [Last(w)] + v;
    } else {
      TotalOfJoin(kind, w[1..], v);
      assert (w + v)[1..] == w[1..] + v;
    }
  }

  /** The number of further changes of state that updates can still make. */
  function Budget(cfg: Config, p: Planner): int {
    var cycles := 5 * (cfg.maxBypassAttempts - p.bypass.attempts);
    if !p.initialized then cycles + 4 else
    match p.state
    case Waiting => cycles + 4
    case Forward => cycles + 3
    case Evaluate => cycles + 2
    case ShiftOut => cycles + 6
    case PassObstacle => cycles + 5
    case ShiftBack => cycles + 4
    case Complete => 1
    case Blocked => 1
    case SensorFault => 0
  }

  /** What a stretch of path from `p` to `q` accounts for. */
  ghost predicate Accounts(cfg: Config, p: Planner, path: seq<NavigationState>, q: Planner) {
    var w := [p.state] + path;
    && Last(w) == q.state
    && Legal(w)
    && q.bypass.attempts == p.bypass.attempts + Total(Selections, w)
  }

  ghost predicate Spends(cfg: Config, p: Planner, path: seq<NavigationState>, q: Planner) {
    Budget(cfg, q) + Total(Changes, [p.state] + path) <= Budget(cfg, p)
  }

  lemma ActAccounts(cfg: Config, p: Planner, s: Sample)
    requires Usual(cfg) && Valid(cfg, p) && p.initialized
    ensures match Act(cfg, p, s)
            case End(t) => Accounts(cfg, p, t.path, t.next) && Spends(cfg, p, t.path, t.next)
            case FallTo(q) =>
              && Edge(p.state, q.state)
              && q.bypass.attempts == p.bypass.attempts + Weight(Selections, p.state, q.state)
              && Budget(cfg, q) + Weight(Changes, p.state, q.state) <= Budget(cfg, p)
  {
    var a := Act(cfg, p, s);
    if a.End? {
      assert |a.tick.path| <= 1;
      var w := [p.state] + a.tick.path;
      if |w| == 2 {
        assert w[1..] == [w[1]];
      }
    }
  }

  lemma Prepend(kind: Kind, a: NavigationState, w: seq<NavigationState>)
    requires w != []
    ensures Total(kind, [a] + w) == Weight(kind, a, w[0]) + Total(kind, w)
    ensures Legal([a] + w) <==> Edge(a, w[0]) && Legal(w)
    ensures Last([a] + w) == Last(w)
  {
    assert ([a] + w)[1..] == w;
  }

  lemma {:induction false} DecideAccounts(cfg: Config, p: Planner, s: Sample)
    requires Usual(cfg) && Valid(cfg, p) && p.initialized
    ensures var t := Decide(cfg, p, s);
            Accounts(cfg, p, t.path, t.next) && Spends(cfg, p, t.path, t.next)
    decreases FallsLeft(p.state)
  {
    ActAccounts(cfg, p, s);
    match Act(cfg, p, s)
    case End(_) =>
    case FallTo(q) =>
      ActKeepsValid(cfg, p, s);
      DecideAccounts(cfg, q, s);
      var w := [q.state] + Decide(cfg, q, s).path;
      Prepend(Selections, p.state, w);
      Prepend(Changes, p.state, w);
  }

  lemma ShortPath(kind: Kind, a: NavigationState, path: seq<NavigationState>)
    requires |path| <= 2
    ensures Total(kind, [a] + path)
         == (if |path| > 0 then Weight(kind, a, path[0]) else 0)
          + (if |path| > 1 then Weight(kind, path[0], path[1]) else 0)
    ensures Legal([a] + path)
        <==> (|path| > 0 ==> Edge(a, path[0])) && (|path| > 1 ==> Edge(path[0], path[1]))
  {
    var w := [a] + path;
    if |path| == 1 {
      assert w[1..] == [path[0]];
    } else if |path| == 2 {
      assert w[1..] == [path[0], path[1]];
      assert w[1..][1..] == [path[1]];
      assert Total(kind, w[1..]) == Weight(kind, path[0], path[1]);
      assert Legal(w[1..]) <==> Edge(path[0], path[1]);
    }
  }

  // A call that its sensors or the watchdog end before any state acts.
  lemma EarlyEndAccounts(cfg: Config, p: Planner, e: Event)
    requires Usual(cfg) && Valid(cfg, p)
    requires e.Sense? ==> !Reaches(cfg, p, e.input)
    ensures Accounts(cfg, p, PathOf(cfg, p, e), After(cfg, p, e))
    ensures e.Sense? ==> Spends(cfg, p, PathOf(cfg, p, e), After(cfg, p, e))
  {
    ShortPath(Selections, p.state, PathOf(cfg, p, e));
    ShortPath(Changes, p.state, PathOf(cfg, p, e));
  }

  lemma EventAccounts(cfg: Config, p: Planner, e: Event)
    requires Usual(cfg) && Valid(cfg, p)
    ensures Accounts(cfg, p, PathOf(cfg, p, e), After(cfg, p, e))
    ensures e.Sense? ==> Spends(cfg, p, PathOf(cfg, p, e), After(cfg, p, e))
  {
    if e.Sense? && Reaches(cfg, p, e.input) {
      var r := Handed(cfg, p, e.input);
      DecideAccounts(cfg, r, Sampled(e.input));
      if !p.initialized {
        var w := [Forward] + Decide(cfg, r, Sampled(e.input)).path;
        Prepend(Selections, p.state, w);
        Prepend(Changes, p.state, w);
      }
    } else {
      EarlyEndAccounts(cfg, p, e);
    }
  }

  lemma PathEnds(cfg: Config, p: Planner, e: Event, w: seq<NavigationState>)
    requires Usual(cfg) && Valid(cfg, p)
    requires w != [] && Last(w) == p.state
    ensures Last(w + PathOf(cfg, p, e)) == After(cfg, p, e).state
  {
    var path, state := PathOf(cfg, p, e), After(cfg, p, e).state;
    assert Last([p.state] + path) == state by {
      EventAccounts(cfg, p, e);
    }
    assert |path| > 0 ==> Last(path) == state;
  }

  lemma {:induction false} WalkEnds(cfg: Config, events: seq<Event>, n: nat)
    requires Usual(cfg) && n <= |events|
    ensures Last(Walk(cfg, events, n)) == StateAt(cfg, events, n).state
  {
    hide Update;
    if n > 0 {
      WalkEnds(cfg, events, n - 1);
      AlwaysValid(cfg, events, n - 1);
      var p, w := StateAt(cfg, events, n - 1), Walk(cfg, events, n - 1);
      PathEnds(cfg, p, events[n - 1], w);
    }
  }

  /** What call `n` adds to the walk's totals: `selected` selections of a side and `changed` changes. */
  lemma WalkGrows(cfg: Config, events: seq<Event>, n: nat) returns (selected: nat, changed: nat)
    requires Usual(cfg) && n < |events|
    ensures Total(Selections, Walk(cfg, events, n + 1)) == Total(Selections, Walk(cfg, events, n)) + selected
    ensures Total(Changes, Walk(cfg, events, n + 1)) == Total(Changes, Walk(cfg, events, n)) + changed
    ensures Legal(Walk(cfg, events, n)) ==> Legal(Walk(cfg, events, n + 1))
    ensures StateAt(cfg, events, n + 1).bypass.attempts == StateAt(cfg, events, n).bypass.attempts + selected
    ensures events[n].Sense? ==>
              Budget(cfg, StateAt(cfg, events, n + 1)) + changed <= Budget(cfg, StateAt(cfg, events, n))
  {
    hide Update;
    AlwaysValid(cfg, events, n);
    WalkEnds(cfg, events, n);
    var p, w := StateAt(cfg, events, n), Walk(cfg, events, n);
    var path := PathOf(cfg, p, events[n]);
    EventAccounts(cfg, p, events[n]);
    TotalOfJoin(Selections, w, path);
    TotalOfJoin(Changes, w, path);
    selected, changed := Total(Selections, [p.state] + path), Total(Changes, [p.state] + path);
  }

  /**
   Every change of state of every run is one of the planner's edges, and the bypass counter is
   the number of times a side was selected, which the configuration bounds.
   */
  lemma {:induction false} SelectionsAreCounted(cfg: Config, events: seq<Event>, n: nat)
    requires Usual(cfg) && n <= |events|
    ensures Legal(Walk(cfg, events, n))
    ensures StateAt(cfg, events, n).bypass.attempts == Total(Selections, Walk(cfg, events, n))
    ensures Total(Selections, Walk(cfg, events, n)) <= cfg.maxBypassAttempts
  {
    hide Update;
    AlwaysValid(cfg, events, n);
    if n > 0 {
      SelectionsAreCounted(cfg, events, n - 1);
      var selected, changed := WalkGrows(cfg, events, n - 1);
    }
  }

  /** A run of updates alone changes state at most five times per bypass attempt, and four times more. */
  lemma {:induction false} ChangesAreBounded(cfg: Config, events: seq<Event>, n: nat)
    requires Usual(cfg) && n <= |events|
    requires forall i | 0 <= i < n :: events[i].Sense?
    ensures Total(Changes, Walk(cfg, events, n)) <= 5 * cfg.maxBypassAttempts + 4
  {
    hide Update;
    ChangesAndBudget(cfg, events, n);
    AlwaysValid(cfg, events, n);
  }

  lemma {:induction false} ChangesAndBudget(cfg: Config, events: seq<Event>, n: nat)
    requires Usual(cfg) && n <= |events|
    requires forall i | 0 <= i < n :: events[i].Sense?
    ensures Total(Changes, Walk(cfg, events, n)) + Budget(cfg, StateAt(cfg, events, n))
         <= 5 * cfg.maxBypassAttempts + 4
  {
    hide Update;
    if n > 0 {
      ChangesAndBudget(cfg, events, n - 1);
      var selected, changed := WalkGrows(cfg, events, n - 1);
    }
  }
}
