/** What the log and the call-site file of a run say about the call sites that its events have named. */
module ProtocolSites {
  import opened Dpst
  import opened Collector
  import opened Protocol
  import opened ProtocolRuns

  predicate Spawns(e: Event) {
    e.Spawn? || e.SpawnAll? || e.SpawnRoot?
  }

  /** The event names call site `a`. */
  predicate Tells(e: Event, a: nat) {
    Spawns(e) && e.site.known && e.site.returnAddress == a
  }

  /** Event `k` is the first one that names `a`. */
  ghost predicate FirstTells(es: seq<Event>, k: nat, a: nat) {
    k < |es| && Tells(es[k], a) && forall j {:trigger es[j]} :: 0 <= j < k ==> !Tells(es[j], a)
  }

  /** What one event does to the call sites. */
  lemma {:induction false} SitesNext(s: Sys, e: Event)
    requires Inv(s) && Enabled(s, e)
    ensures Next(s, e).c.callSites == if Spawns(e) then Register(s.c, e.site.returnAddress, e.site.known, e.site.parFor).callSites
                                      else s.c.callSites
  {
    hide Inv, Quiescent, SpawnAt, SpawnPos, SpawnTree, PushPause, PopPause;
    NextDefined(s, e);
  }

  /** Call site `a` is known if events have named it, with the flag of the first one. */
  ghost predicate Flagged(m: map<nat, bool>, es: seq<Event>, a: nat) {
    && (a in m <==> exists k :: 0 <= k < |es| && Tells(es[k], a))
    && (a in m ==> exists k: nat :: FirstTells(es, k, a) && m[a] == es[k].site.parFor)
  }

  /** In every run, the call sites known are those that events have named, each with the flag that the
      first event gave which named it. */
  lemma {:induction false} FirstFlag(threads: nat, es: seq<Event>, a: nat)
    requires threads > 0 && Run(threads, es).Some?
    ensures Flagged(Run(threads, es).value.c.callSites, es, a)
    decreases |es|
  {
    hide Inv, Next, Enabled, Tells, Register;
    if es == [] {
      NoSites(threads);
    } else {
      var n := |es| - 1;
      var init, e := es[..n], es[n];
      FirstFlag(threads, init, a);
      SitesNext(Run(threads, init).value, e);
      RegisterOne(Run(threads, init).value.c, e, a);
      OneMore(es, Run(threads, init).value.c.callSites, Run(threads, es).value.c.callSites, a);
    }
  }

  lemma {:induction false} OneMore(es: seq<Event>, m0: map<nat, bool>, m: map<nat, bool>, a: nat)
    requires es != [] && Flagged(m0, es[..|es| - 1], a)
    requires var e := es[|es| - 1];
             && (a in m0 ==> a in m && m[a] == m0[a])
             && (a !in m0 ==> (a in m <==> Tells(e, a)) && (Tells(e, a) ==> m[a] == e.site.parFor))
    ensures Flagged(m, es, a)
  {
    var n := |es| - 1;
    var init := es[..n];
    assert forall k {:trigger es[k]} {:trigger init[k]} :: 0 <= k < n ==> es[k] == init[k];
    if a in m0 {
      var k: nat :| FirstTells(init, k, a) && m0[a] == init[k].site.parFor;
      assert FirstTells(es, k, a) && m[a] == es[k].site.parFor;
      assert Tells(es[k], a);
    } else {
      assert forall k {:trigger es[k]} :: 0 <= k < n ==> !Tells(es[k], a);
      if Tells(es[n], a) {
        assert FirstTells(es, n, a);
      }
    }
  }

  lemma {:induction false} RegisterOne(c: State, e: Event, a: nat)
    ensures var m := if Spawns(e) then Register(c, e.site.returnAddress, e.site.known, e.site.parFor).callSites else c.callSites;
            && (a in c.callSites ==> a in m && m[a] == c.callSites[a])
            && (a !in c.callSites ==> (a in m <==> Tells(e, a)) && (Tells(e, a) ==> Spawns(e) && m[a] == e.site.parFor))
  {
  }

  lemma {:induction false} NoSites(threads: nat)
    requires threads > 0
    ensures Initial(threads).c.callSites == map[]
  {
  }

  // ---- how often a call site occurs ----

  predicate Bears(r: Record, kind: NodeType, a: nat) {
    r.kind == kind && r.callSite == a
  }

  function Records(log: seq<Record>, kind: NodeType, a: nat): nat {
    if log == [] then 0
    else Records(log[..|log| - 1], kind, a) + if Bears(log[|log| - 1], kind, a) then 1 else 0
  }

  /** The node that the event makes for the task it spawns bears call site `a`. */
  predicate Makes(e: Event, kind: NodeType, a: nat) {
    Spawns(e) && CallSiteOf(e.site) == a && kind == if e.SpawnRoot? then FINISH else ASYNC
  }

  function Made(es: seq<Event>, kind: NodeType, a: nat): nat {
    if es == [] then 0
    else Made(es[..|es| - 1], kind, a) + if Makes(es[|es| - 1], kind, a) then 1 else 0
  }

  lemma {:induction false} RecordsAppend(log: seq<Record>, r: Record, kind: NodeType, a: nat)
    ensures Records(log + [r], kind, a) == Records(log, kind, a) + if Bears(r, kind, a) then 1 else 0
  {
    assert (log + [r])[..|log|] == log;
  }

  lemma {:induction false} RecordsPair(log: seq<Record>, q: Record, r: Record, kind: NodeType, a: nat)
    ensures Records(log + [q, r], kind, a)
            == Records(log, kind, a) + (if Bears(q, kind, a) then 1 else 0) + (if Bears(r, kind, a) then 1 else 0)
  {
    RecordsAppend(log, q, kind, a);
    RecordsAppend(log + [q], r, kind, a);
    assert log + [q] + [r] == log + [q, r];
  }

  /** What one event adds to the log. */
  lemma {:induction false} LogNext(s: Sys, e: Event)
    requires Inv(s) && Enabled(s, e)
    ensures Active(s.c, e.t) || !(Spawns(e) || e.EndStep?)
    ensures var log, n := s.c.log, s.c.last;
            Next(s, e).c.log == log +
              if e.EndStep? then [Record(Top(s.c.stacks[e.t]).child, Top(s.c.stacks[e.t]).id, e.work, STEP, 0)]
              else if e.SpawnRoot? then [Record(n, Top(s.c.stacks[e.t]).id, 0, FINISH, CallSiteOf(e.site))]
              else if !Spawns(e) then []
              else if Top(s.c.stacks[e.t]).young == ASYNC then
                [Record(n, Top(s.c.stacks[e.t]).id, 0, ASYNC, CallSiteOf(e.site))]
              else
                [Record(n, Top(s.c.stacks[e.t]).id, 0, FINISH, 0), Record(n + 1, n, 0, ASYNC, CallSiteOf(e.site))]
  {
    hide Inv, Quiescent, SpawnAt, SpawnPos, SpawnTree, PushPause, PopPause;
    NextDefined(s, e);
    assert s.c.log + [] == s.c.log;
  }

  /** In every run, the log has as many tasks and as many roots with a known call site `a` as events have
      spawned there; the FINISH nodes without a call site are not counted. */
  lemma {:induction false} SiteCounts(threads: nat, es: seq<Event>, a: nat)
    requires threads > 0 && Run(threads, es).Some? && a != 0
    ensures Records(Run(threads, es).value.c.log, ASYNC, a) == Made(es, ASYNC, a)
    ensures Records(Run(threads, es).value.c.log, FINISH, a) == Made(es, FINISH, a)
    decreases |es|
  {
    hide Inv, Next, Enabled, Records;
    if es == [] {
      RecordsAppend([], Record(1, 0, 0, FINISH, 0), ASYNC, a);
      RecordsAppend([], Record(1, 0, 0, FINISH, 0), FINISH, a);
      FirstRecord(threads, a);
    } else {
      SiteCounts(threads, es[..|es| - 1], a);
      SiteCountsNext(Run(threads, es[..|es| - 1]).value, es[|es| - 1], a, ASYNC);
      SiteCountsNext(Run(threads, es[..|es| - 1]).value, es[|es| - 1], a, FINISH);
    }
  }

  lemma {:induction false} FirstRecord(threads: nat, a: nat)
    requires threads > 0
    ensures [] + [Record(1, 0, 0, FINISH, 0)] == Initial(threads).c.log
    ensures Records([], ASYNC, a) == 0 == Records([], FINISH, a)
  {
  }

  lemma {:induction false} SiteCountsNext(s: Sys, e: Event, a: nat, kind: NodeType)
    requires Inv(s) && Enabled(s, e) && a != 0 && kind in {ASYNC, FINISH}
    ensures Records(Next(s, e).c.log, kind, a) == Records(s.c.log, kind, a) + if Makes(e, kind, a) then 1 else 0
  {
    hide Inv, Next, Enabled, Records;
    LogNext(s, e);
    var log, n := s.c.log, s.c.last;
    if e.EndStep? {
      RecordsAppend(log, Record(Top(s.c.stacks[e.t]).child, Top(s.c.stacks[e.t]).id, e.work, STEP, 0), kind, a);
    } else if e.SpawnRoot? {
      RecordsAppend(log, Record(n, Top(s.c.stacks[e.t]).id, 0, FINISH, CallSiteOf(e.site)), kind, a);
    } else if Spawns(e) {
      var cur := Top(s.c.stacks[e.t]);
      RecordsAppend(log, Record(n, cur.id, 0, ASYNC, CallSiteOf(e.site)), kind, a);
      RecordsPair(log, Record(n, cur.id, 0, FINISH, 0), Record(n + 1, n, 0, ASYNC, CallSiteOf(e.site)), kind, a);
    } else {
      assert log + [] == log;
    }
  }
}
