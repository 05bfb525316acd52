/** The aggregator as a protocol: threads push their operations into a mailbox, and whoever finds it
    empty becomes the next handler. An operation lives on the stack of its thread, so thread `t`
    uses the same address `t` in every call: a pointer read earlier may refer to a later operation. */
module Aggregator {
  import opened Completion

  type Ptr = Option<nat>

  /** Where a thread is in execute_impl, start_handle_operations and basic_handler. */
  datatype Pc =
    | Idle
    | ReadMailbox
    | Swap(res: Ptr)
    | SpinOnBusy
    | SetBusy
    | Grab
    | Handle(list: Ptr)
    | Apply(op: nat, rest: Ptr)
    | Finish(op: nat, rest: Ptr)
    | Release
    | WaitStatus

  /** The shared words, the program counters, and how often every thread has called execute and had
      its operation applied. */
  datatype Agg = Agg(
    mailbox: Ptr,
    busy: bool,
    next: seq<Ptr>,
    finished: seq<bool>,
    pc: seq<Pc>,
    calls: seq<nat>,
    applied: seq<nat>)

  function Start(threads: nat): Agg {
    Agg(None, false, seq(threads, _ => None), seq(threads, _ => false), seq(threads, _ => Idle),
        seq(threads, _ => 0), seq(threads, _ => 0))
  }

  predicate Sized(s: Agg) {
    |s.next| == |s.finished| == |s.pc| == |s.calls| == |s.applied|
  }

  predicate CanStep(s: Agg, t: nat) {
    && Sized(s) && t < |s.pc|
    && match s.pc[t]
       case SpinOnBusy => !s.busy
       case WaitStatus => s.finished[t]
       case Handle(Some(o)) => o < |s.pc|
       case Apply(o, _) => o < |s.pc|
       case Finish(o, _) => o < |s.pc|
       case _ => true
  }

  /** Thread `t` performs one access to shared memory. */
  function Step(s: Agg, t: nat): Agg
    requires CanStep(s, t)
  {
    match s.pc[t]
    case Idle =>
      s.(next := s.next[t := None], finished := s.finished[t := false], calls := s.calls[t := s.calls[t] + 1],
         pc := s.pc[t := ReadMailbox])
    case ReadMailbox =>
      s.(next := s.next[t := s.mailbox], pc := s.pc[t := Swap(s.mailbox)])
    case Swap(res) =>
      if s.mailbox == res then s.(mailbox := Some(t), pc := s.pc[t := if res == None then SpinOnBusy else WaitStatus])
      else s.(pc := s.pc[t := ReadMailbox])
    case SpinOnBusy => s.(pc := s.pc[t := SetBusy])
    case SetBusy => s.(busy := true, pc := s.pc[t := Grab])
    case Grab => s.(mailbox := None, pc := s.pc[t := Handle(s.mailbox)])
    case Handle(list) =>
      s.(pc := s.pc[t := match list case None => Release case Some(o) => Apply(o, s.next[o])])
    case Apply(o, rest) =>
      s.(applied := s.applied[o := s.applied[o] + 1], pc := s.pc[t := Finish(o, rest)])
    case Finish(o, rest) =>
      s.(finished := s.finished[o := true], pc := s.pc[t := Handle(rest)])
    case Release => s.(busy := false, pc := s.pc[t := Idle])
    case WaitStatus => s.(pc := s.pc[t := Idle])
  }

  // ---- the invariant ----

  /** Has pushed the first operation of the list in the mailbox. */
  predicate Leads(p: Pc) {
    p.SpinOnBusy? || p.SetBusy? || p.Grab?
  }

  predicate Handles(p: Pc) {
    p.Handle? || p.Apply? || p.Finish? || p.Release?
  }

  predicate Holds(p: Pc) {
    p.Grab? || Handles(p)
  }

  function At(l: seq<nat>, i: nat): Ptr {
    if i < |l| then Some(l[i]) else None
  }

  /** The operations `l` are chained by their next pointers. */
  ghost predicate Linked(next: seq<Ptr>, l: seq<nat>) {
    && (forall i {:trigger l[i]} :: 0 <= i < |l| ==> l[i] < |next|)
    && (forall i {:trigger next[l[i]]} :: 0 <= i < |l| ==> next[l[i]] == At(l, i + 1))
    && (forall i, j {:trigger l[i], l[j]} :: 0 <= i < j < |l| ==> l[i] != l[j])
  }

  /** `m` is the list in the mailbox: all wait for a handler, and the one pushed first leads. */
  ghost predicate Mail(s: Agg, m: seq<nat>)
    requires Sized(s)
  {
    && s.mailbox == At(m, 0) && Linked(s.next, m)
    && (forall i {:trigger m[i]} :: 0 <= i < |m| ==>
          && !s.finished[m[i]] && s.applied[m[i]] + 1 == s.calls[m[i]]
          && if i == |m| - 1 then Leads(s.pc[m[i]]) else s.pc[m[i]].WaitStatus?)
    && (forall t {:trigger s.pc[t]} :: 0 <= t < |s.pc| && Leads(s.pc[t]) ==> |m| > 0 && t == m[|m| - 1])
  }

  /** `w` is the list that the handler still has to finish; its own operation comes last. */
  ghost predicate Work(s: Agg, w: seq<nat>)
    requires Sized(s)
  {
    && Linked(s.next, w)
    && (forall i {:trigger w[i]} :: 0 <= i < |w| ==>
          && !s.finished[w[i]]
          && if i == |w| - 1 then Handles(s.pc[w[i]]) else s.pc[w[i]].WaitStatus?)
    && (forall i {:trigger w[i]} :: 0 < i < |w| ==> s.applied[w[i]] + 1 == s.calls[w[i]])
    && (forall t {:trigger s.pc[t]} :: 0 <= t < |s.pc| && Handles(s.pc[t]) && |w| > 0 ==> t == w[|w| - 1])
    && (forall t {:trigger s.pc[t]} :: 0 <= t < |s.pc| && Handles(s.pc[t]) ==> AtHead(s, w, s.pc[t]))
  }

  ghost predicate AtHead(s: Agg, w: seq<nat>, p: Pc)
    requires Linked(s.next, w) && Sized(s)
  {
    match p
    case Handle(l) => l == At(w, 0) && (w != [] ==> s.applied[w[0]] + 1 == s.calls[w[0]])
    case Apply(o, rest) => w != [] && o == w[0] && rest == At(w, 1) && s.applied[o] + 1 == s.calls[o]
    case Finish(o, rest) => w != [] && o == w[0] && rest == At(w, 1) && s.applied[o] == s.calls[o]
    case Release => w == []
    case _ => true
  }

  /** Only the owner of the handler has set the flag, and nobody is about to set it again. */
  ghost predicate Exclusive(s: Agg) {
    && (forall t {:trigger s.pc[t]} :: 0 <= t < |s.pc| ==>
          (Holds(s.pc[t]) ==> s.busy) && (s.pc[t].SetBusy? ==> !s.busy))
    && (forall t, u {:trigger s.pc[t], s.pc[u]} :: 0 <= t < |s.pc| && 0 <= u < |s.pc| && Holds(s.pc[t]) && Holds(s.pc[u]) ==> t == u)
  }

  /** What is known of a thread whose operation is in no list. */
  ghost predicate Apart(s: Agg, t: nat)
    requires Sized(s) && t < |s.pc|
  {
    match s.pc[t]
    case Idle => s.applied[t] == s.calls[t]
    case ReadMailbox => s.applied[t] + 1 == s.calls[t] && !s.finished[t]
    case Swap(res) => s.applied[t] + 1 == s.calls[t] && !s.finished[t] && s.next[t] == res
    case _ => s.applied[t] == s.calls[t] && s.finished[t]
  }

  ghost predicate Disjoint(m: seq<nat>, w: seq<nat>) {
    forall t {:trigger t in m} {:trigger t in w} :: t in m ==> t !in w
  }

  ghost predicate AllApart(s: Agg, m: seq<nat>, w: seq<nat>)
    requires Sized(s)
  {
    forall t: nat {:trigger s.pc[t]} :: t < |s.pc| && t !in m && t !in w ==> Apart(s, t)
  }

  ghost predicate Inv(s: Agg, m: seq<nat>, w: seq<nat>) {
    Sized(s) && Mail(s, m) && Work(s, w) && Exclusive(s) && Disjoint(m, w) && AllApart(s, m, w)
  }

  // ---- frames ----

  /** Only the program counter of `t` and the operation of `u` change. */
  ghost predicate Touches(s: Agg, s': Agg, t: nat, u: nat) {
    && Sized(s) && Sized(s') && |s'.pc| == |s.pc| && t < |s.pc|
    && (forall x {:trigger s'.pc[x]} :: 0 <= x < |s.pc| && x != t ==> s'.pc[x] == s.pc[x])
    && (forall x {:trigger s'.next[x]} :: 0 <= x < |s.pc| && x != u ==> s'.next[x] == s.next[x])
    && (forall x {:trigger s'.finished[x]} :: 0 <= x < |s.pc| && x != u ==> s'.finished[x] == s.finished[x])
    && (forall x {:trigger s'.applied[x]} :: 0 <= x < |s.pc| && x != u ==> s'.applied[x] == s.applied[x])
    && (forall x {:trigger s'.calls[x]} :: 0 <= x < |s.pc| && x != u ==> s'.calls[x] == s.calls[x])
  }

  lemma {:induction false} MailFrame(s: Agg, s': Agg, m: seq<nat>, t: nat, u: nat)
    requires Touches(s, s', t, u) && Mail(s, m) && s'.mailbox == s.mailbox && u !in m
    requires Leads(s.pc[t]) <==> Leads(s'.pc[t])
    requires t in m ==> Leads(s.pc[t])
    ensures Mail(s', m)
  {
    forall i | 0 <= i < |m|
      ensures m[i] < |s'.next| && s'.next[m[i]] == At(m, i + 1) && !s'.finished[m[i]] && s'.applied[m[i]] + 1 == s'.calls[m[i]]
      ensures if i == |m| - 1 then Leads(s'.pc[m[i]]) else s'.pc[m[i]].WaitStatus?
    {
      assert m[i] in m;
    }
  }

  lemma {:induction false} WorkFrame(s: Agg, s': Agg, w: seq<nat>, t: nat, u: nat)
    requires Touches(s, s', t, u) && Work(s, w) && u !in w && t !in w && !Handles(s.pc[t]) && !Handles(s'.pc[t])
    ensures Work(s', w)
  {
    forall i | 0 <= i < |w|
      ensures w[i] < |s'.next| && s'.next[w[i]] == At(w, i + 1) && !s'.finished[w[i]]
      ensures if i == |w| - 1 then Handles(s'.pc[w[i]]) else s'.pc[w[i]].WaitStatus?
      ensures s'.applied[w[i]] == s.applied[w[i]] && s'.calls[w[i]] == s.calls[w[i]]
    {
      assert w[i] in w;
    }
    forall x | 0 <= x < |s'.pc| && Handles(s'.pc[x]) ensures (|w| > 0 ==> x == w[|w| - 1]) && AtHead(s', w, s'.pc[x]) {
      assert Handles(s.pc[x]);
    }
  }

  lemma {:induction false} ApartFrame(s: Agg, s': Agg, m: seq<nat>, w: seq<nat>, t: nat, u: nat)
    requires Touches(s, s', t, u) && AllApart(s, m, w)
    requires t !in m && t !in w ==> Apart(s', t)
    requires u < |s.pc| && u !in m && u !in w && u != t ==> Apart(s', u)
    ensures AllApart(s', m, w)
  {
    forall x: nat | x < |s'.pc| && x !in m && x !in w ensures Apart(s', x) {
      if x != t && x != u {
        assert Apart(s, x);
        assert s'.next[x] == s.next[x] && s'.finished[x] == s.finished[x] && s'.applied[x] == s.applied[x] && s'.calls[x] == s.calls[x];
      }
    }
  }

  lemma {:induction false} ApartLess(s: Agg, m: seq<nat>, w: seq<nat>, m': seq<nat>, w': seq<nat>)
    requires Sized(s) && AllApart(s, m, w) && forall x: nat {:trigger x in m} {:trigger x in w} :: x in m || x in w ==> x in m' || x in w'
    ensures AllApart(s, m', w')
  {
    forall t: nat | t < |s.pc| && t !in m' && t !in w' ensures Apart(s, t) {
      assert t !in m && t !in w;
    }
  }

  // ---- every step keeps the invariant ----

  lemma {:induction false} StartInv(threads: nat)
    ensures Inv(Start(threads), [], [])
  {
    var s := Start(threads);
    assert forall t {:trigger s.pc[t]} :: 0 <= t < threads ==> s.pc[t] == Idle;
    forall t: nat | t < threads ensures Apart(s, t) {
    }
  }

  /** A thread that appears in no list. */
  lemma {:induction false} NotListed(s: Agg, m: seq<nat>, w: seq<nat>, t: nat)
    requires Inv(s, m, w) && t < |s.pc| && !Leads(s.pc[t]) && !Handles(s.pc[t]) && (s.pc[t].WaitStatus? ==> s.finished[t])
    ensures t !in m && t !in w && Apart(s, t)
  {
    forall i | 0 <= i < |m| ensures m[i] != t {
      assert i == |m| - 1 || s.pc[m[i]].WaitStatus?;
    }
    forall i | 0 <= i < |w| ensures w[i] != t {
      assert i == |w| - 1 || s.pc[w[i]].WaitStatus?;
    }
  }

  lemma {:induction false} NoThread(s: Agg, m: seq<nat>, w: seq<nat>)
    requires Inv(s, m, w)
    ensures |s.pc| !in m && |s.pc| !in w
  {
  }

  /** A call starts, its operation gets its next pointer, or it has been finished. */
  lemma {:induction false} OwnStep(s: Agg, m: seq<nat>, w: seq<nat>, t: nat)
    requires Inv(s, m, w) && CanStep(s, t)
    requires s.pc[t].Idle? || s.pc[t].ReadMailbox? || s.pc[t].WaitStatus? || (s.pc[t].Swap? && s.mailbox != s.pc[t].res)
    ensures Inv(Step(s, t), m, w)
  {
    hide Mail, Work, AllApart, Disjoint;
    var s' := Step(s, t);
    NotListed(s, m, w, t);
    MailFrame(s, s', m, t, t);
    WorkFrame(s, s', w, t, t);
    ApartFrame(s, s', m, w, t, t);
  }

  lemma {:induction false} LinkPush(next: seq<Ptr>, l: seq<nat>, t: nat)
    requires Linked(next, l) && t < |next| && next[t] == At(l, 0) && t !in l
    ensures Linked(next, [t] + l)
  {
    var n := [t] + l;
    PushDistinct(l, t);
    forall i | 0 <= i < |n| ensures n[i] < |next| && next[n[i]] == At(n, i + 1) {
      if i > 0 {
        var x := l[i - 1];
        assert n[i] == x && next[x] == At(l, i) == At(n, i + 1);
      } else {
        assert At(n, 1) == At(l, 0);
      }
    }
  }

  lemma {:induction false} PushDistinct(l: seq<nat>, t: nat)
    requires t !in l && forall i, j {:trigger l[i], l[j]} :: 0 <= i < j < |l| ==> l[i] != l[j]
    ensures var n := [t] + l; forall i, j {:trigger n[i], n[j]} :: 0 <= i < j < |n| ==> n[i] != n[j]
  {
    var n := [t] + l;
    forall i, j | 0 <= i < j < |n| ensures n[i] != n[j] {
      var y := l[j - 1];
      assert n[j] == y && y in l;
      if i > 0 {
        assert n[i] == l[i - 1] != y;
      }
    }
  }

  lemma {:induction false} LinkTail(next: seq<Ptr>, l: seq<nat>)
    requires Linked(next, l) && l != []
    ensures Linked(next, l[1..]) && l[0] !in l[1..]
  {
    var n := l[1..];
    forall i | 0 <= i < |n| ensures n[i] < |next| && next[n[i]] == At(n, i + 1) {
      assert n[i] == l[i + 1];
    }
    forall i, j | 0 <= i < j < |n| ensures n[i] != n[j] {
      assert n[i] == l[i + 1] && n[j] == l[j + 1];
    }
  }

  lemma {:induction false} SwapMail(s: Agg, m: seq<nat>, t: nat)
    requires Sized(s) && Mail(s, m) && CanStep(s, t) && s.pc[t] == Swap(s.mailbox) && t !in m
    requires s.applied[t] + 1 == s.calls[t] && !s.finished[t] && s.next[t] == s.mailbox
    ensures Mail(Step(s, t), [t] + m)
  {
    var n, s' := [t] + m, Step(s, t);
    LinkPush(s.next, m, t);
    forall i | 0 < i < |n|
      ensures n[i] == m[i - 1] && n[i] != t && n[i] < |s.pc|
      ensures !s'.finished[n[i]] && s'.applied[n[i]] + 1 == s'.calls[n[i]]
      ensures if i == |n| - 1 then Leads(s'.pc[n[i]]) else s'.pc[n[i]].WaitStatus?
    {
      assert m[i - 1] in m;
    }
  }

  lemma {:induction false} SwapStep(s: Agg, m: seq<nat>, w: seq<nat>, t: nat)
    requires Inv(s, m, w) && CanStep(s, t) && s.pc[t] == Swap(s.mailbox)
    ensures Inv(Step(s, t), [t] + m, w)
  {
    hide Mail, Work, AllApart;
    var s' := Step(s, t);
    NotListed(s, m, w, t);
    SwapMail(s, m, t);
    WorkFrame(s, s', w, t, t);
    ApartLess(s, m, w, [t] + m, w);
    ApartFrame(s, s', [t] + m, w, t, t);
  }

  lemma {:induction false} OneLeader(s: Agg, m: seq<nat>, t: nat)
    requires Sized(s) && Mail(s, m) && t < |s.pc| && Leads(s.pc[t])
    ensures m != [] && t == m[|m| - 1] && t in m
    ensures forall u {:trigger s.pc[u]} :: 0 <= u < |s.pc| && Leads(s.pc[u]) ==> u == t
  {
  }

  lemma {:induction false} LeadStep(s: Agg, m: seq<nat>, w: seq<nat>, t: nat)
    requires Inv(s, m, w) && CanStep(s, t) && (s.pc[t].SpinOnBusy? || s.pc[t].SetBusy?)
    ensures Inv(Step(s, t), m, w)
  {
    hide Mail, Work, AllApart;
    var s' := Step(s, t);
    OneLeader(s, m, t);
    NoThread(s, m, w);
    MailFrame(s, s', m, t, |s.pc|);
    WorkFrame(s, s', w, t, |s.pc|);
    ApartFrame(s, s', m, w, t, |s.pc|);
  }

  lemma {:induction false} WorkOwner(s: Agg, w: seq<nat>)
    requires Sized(s) && Work(s, w)
    ensures w == [] || (w[|w| - 1] < |s.pc| && Handles(s.pc[w[|w| - 1]]))
  {
  }

  /** The handler's list is empty until it has grabbed one. */
  lemma {:induction false} NoWork(s: Agg, w: seq<nat>, t: nat)
    requires Sized(s) && Work(s, w) && Exclusive(s) && t < |s.pc| && s.pc[t].Grab?
    ensures w == []
  {
    WorkOwner(s, w);
  }

  lemma {:induction false} GrabWork(s: Agg, m: seq<nat>, t: nat)
    requires Sized(s) && Mail(s, m) && Exclusive(s) && CanStep(s, t) && s.pc[t].Grab?
    ensures Work(Step(s, t), m) && Mail(Step(s, t), [])
  {
    var s' := Step(s, t);
    OneLeader(s, m, t);
    forall x | 0 <= x < |s'.pc| && Handles(s'.pc[x]) ensures x == t {
      assert Handles(s.pc[x]) || x == t;
    }
  }

  lemma {:induction false} GrabStep(s: Agg, m: seq<nat>, w: seq<nat>, t: nat)
    requires Inv(s, m, w) && CanStep(s, t) && s.pc[t].Grab?
    ensures Inv(Step(s, t), [], m)
  {
    hide Mail, Work, AllApart;
    OneLeader(s, m, t);
    NoWork(s, w, t);
    GrabWork(s, m, t);
    ApartLess(s, m, w, [], m);
    ApartFrame(s, Step(s, t), [], m, t, |s.pc|);
  }

  /** The handler's own operation is not in the mailbox, but last in its list. */
  lemma {:induction false} HandlerPlace(s: Agg, m: seq<nat>, w: seq<nat>, t: nat)
    requires Inv(s, m, w) && t < |s.pc| && Handles(s.pc[t])
    ensures t !in m && (w != [] ==> t == w[|w| - 1] && w[0] in w && w[0] !in m) && AtHead(s, w, s.pc[t])
    ensures w == [] ==> Apart(s, t)
  {
    forall i | 0 <= i < |m| ensures m[i] != t {
      assert i == |m| - 1 || s.pc[m[i]].WaitStatus?;
    }
  }

  lemma {:induction false} HandleWork(s: Agg, w: seq<nat>, t: nat)
    requires Sized(s) && Work(s, w) && CanStep(s, t) && (s.pc[t].Handle? || s.pc[t].Apply?) && Exclusive(s)
    ensures Work(Step(s, t), w)
  {
    var s' := Step(s, t);
    assert AtHead(s, w, s.pc[t]);
    forall x | 0 <= x < |s'.pc| && Handles(s'.pc[x]) ensures x == t {
      assert Handles(s.pc[x]) || x == t;
    }
    assert w != [] ==> w[0] < |s.next|;
    assert forall i {:trigger w[i]} :: 0 < i < |w| ==> w[i] != w[0];
  }

  lemma {:induction false} HandleStep(s: Agg, m: seq<nat>, w: seq<nat>, t: nat)
    requires Inv(s, m, w) && CanStep(s, t) && (s.pc[t].Handle? || s.pc[t].Apply?)
    ensures Inv(Step(s, t), m, w)
  {
    hide Mail, Work, AllApart, Disjoint;
    var s' := Step(s, t);
    HandlerPlace(s, m, w, t);
    NoThread(s, m, w);
    var u := if s.pc[t].Apply? then s.pc[t].op else |s.pc|;
    MailFrame(s, s', m, t, u);
    HandleWork(s, w, t);
    ApartFrame(s, s', m, w, t, u);
  }

  lemma {:induction false} FinishWork(s: Agg, w: seq<nat>, t: nat)
    requires Sized(s) && Work(s, w) && CanStep(s, t) && s.pc[t].Finish? && Exclusive(s)
    ensures w != [] && s.pc[t].op == w[0] && Work(Step(s, t), w[1..])
    ensures Apart(Step(s, t), w[0]) && (|w| > 1 ==> t in w[1..]) && (|w| == 1 ==> t == w[0])
  {
    var s', v := Step(s, t), w[1..];
    assert AtHead(s, w, s.pc[t]);
    forall x | 0 <= x < |s'.pc| && Handles(s'.pc[x]) ensures x == t {
      assert Handles(s.pc[x]) || x == t;
    }
    LinkTail(s.next, w);
    forall i | 0 <= i < |v|
      ensures v[i] == w[i + 1] && v[i] != w[0] && v[i] < |s.pc|
      ensures !s'.finished[v[i]] && s'.applied[v[i]] + 1 == s'.calls[v[i]]
      ensures if i == |v| - 1 then Handles(s'.pc[v[i]]) else s'.pc[v[i]].WaitStatus?
    {
      assert v[i] in v;
      assert w[|w| - 1] == t;
    }
    assert |w| > 1 ==> v[|v| - 1] == t;
  }

  lemma {:induction false} FinishStep(s: Agg, m: seq<nat>, w: seq<nat>, t: nat)
    requires Inv(s, m, w) && CanStep(s, t) && s.pc[t].Finish?
    ensures w != [] && Inv(Step(s, t), m, w[1..])
  {
    hide Mail, Work, Apart;
    var s' := Step(s, t);
    HandlerPlace(s, m, w, t);
    FinishWork(s, w, t);
    MailFrame(s, s', m, t, w[0]);
    assert w == [w[0]] + w[1..];
    forall x: nat | x < |s'.pc| && x !in m && x !in w[1..] ensures Apart(s', x) {
      if x != w[0] {
        assert x !in w;
        FinishApart(s, t, x);
      }
    }
  }

  lemma {:induction false} FinishApart(s: Agg, t: nat, x: nat)
    requires CanStep(s, t) && s.pc[t].Finish? && x < |s.pc| && x != t && x != s.pc[t].op && Apart(s, x)
    ensures Apart(Step(s, t), x)
  {
  }

  lemma {:induction false} ReleaseStep(s: Agg, m: seq<nat>, w: seq<nat>, t: nat)
    requires Inv(s, m, w) && CanStep(s, t) && s.pc[t].Release?
    ensures Inv(Step(s, t), m, w)
  {
    hide Mail, AllApart;
    var s' := Step(s, t);
    HandlerPlace(s, m, w, t);
    NoThread(s, m, w);
    MailFrame(s, s', m, t, |s.pc|);
    ApartFrame(s, s', m, w, t, |s.pc|);
    forall x | 0 <= x < |s'.pc| ensures !Handles(s'.pc[x]) {
      assert x != t ==> !Holds(s.pc[x]);
    }
  }

  /** Every step keeps the invariant, for some new pair of lists. */
  lemma {:induction false} StepInv(s: Agg, m: seq<nat>, w: seq<nat>, t: nat) returns (m': seq<nat>, w': seq<nat>)
    requires Inv(s, m, w) && CanStep(s, t)
    ensures Inv(Step(s, t), m', w')
  {
    hide Mail, Work, AllApart, Disjoint, Inv, Exclusive, Step;
    m', w' := m, w;
    match s.pc[t]
    case Idle => OwnStep(s, m, w, t);
    case ReadMailbox => OwnStep(s, m, w, t);
    case WaitStatus => OwnStep(s, m, w, t);
    case Swap(res) =>
      if s.mailbox == res {
        SwapStep(s, m, w, t);
        m' := [t] + m;
      } else {
        OwnStep(s, m, w, t);
      }
    case SpinOnBusy => LeadStep(s, m, w, t);
    case SetBusy => LeadStep(s, m, w, t);
    case Grab =>
      GrabStep(s, m, w, t);
      m', w' := [], m;
    case Handle(_) => HandleStep(s, m, w, t);
    case Apply(_, _) => HandleStep(s, m, w, t);
    case Finish(_, _) =>
      FinishStep(s, m, w, t);
      w' := w[1..];
    case Release => ReleaseStep(s, m, w, t);
  }

  // ---- what this means for every run ----

  /** The state after the threads `ts` have stepped in this order, or None if one of them had to wait. */
  function Run(threads: nat, ts: seq<nat>): Option<Agg>
    decreases |ts|
  {
    if ts == [] then Some(Start(threads))
    else
      match Run(threads, ts[..|ts| - 1])
      case None => None
      case Some(s) => if CanStep(s, ts[|ts| - 1]) then Some(Step(s, ts[|ts| - 1])) else None
  }

  lemma {:induction false} RunInv(threads: nat, ts: seq<nat>) returns (m: seq<nat>, w: seq<nat>)
    requires Run(threads, ts).Some?
    ensures Inv(Run(threads, ts).value, m, w) && Owned(Run(threads, ts).value)
    decreases |ts|
  {
    hide Inv, Step, Owned;
    if ts == [] {
      StartInv(threads);
      m, w := [], [];
      StartOwned(threads);
    } else {
      m, w := RunInv(threads, ts[..|ts| - 1]);
      var s := Run(threads, ts[..|ts| - 1]).value;
      m, w := StepInv(s, m, w, ts[|ts| - 1]);
      StepOwned(s, ts[|ts| - 1]);
    }
  }

  /** A set flag has an owner. */
  ghost predicate Owned(s: Agg) {
    s.busy ==> exists t {:trigger s.pc[t]} :: 0 <= t < |s.pc| && Holds(s.pc[t])
  }

  lemma {:induction false} StartOwned(threads: nat)
    ensures Owned(Start(threads))
  {
  }

  lemma {:induction false} StepOwned(s: Agg, t: nat)
    requires CanStep(s, t) && Owned(s)
    ensures Owned(Step(s, t))
  {
    var s' := Step(s, t);
    if s'.busy && s.busy {
      var u :| 0 <= u < |s.pc| && Holds(s.pc[u]);
      assert Holds(s'.pc[u]);
    } else if s'.busy {
      assert Holds(s'.pc[t]);
    }
  }

  /** At most one thread waits for the flag, and at most one runs the handler. */
  ghost predicate OneHandler(s: Agg) {
    && (forall t, u {:trigger s.pc[t], s.pc[u]} :: 0 <= t < |s.pc| && 0 <= u < |s.pc| && Leads(s.pc[t]) && Leads(s.pc[u]) ==> t == u)
    && (forall t, u {:trigger s.pc[t], s.pc[u]} :: 0 <= t < |s.pc| && 0 <= u < |s.pc| && Holds(s.pc[t]) && Holds(s.pc[u]) ==> t == u)
  }

  /** Every call has its operation applied at most once, and before it returns. */
  ghost predicate ExactlyOnce(s: Agg) {
    && Sized(s)
    && forall t {:trigger s.pc[t]} :: 0 <= t < |s.pc| ==>
         && s.applied[t] <= s.calls[t] <= s.applied[t] + 1
         && (s.pc[t].Idle? ==> s.applied[t] == s.calls[t])
         && (s.pc[t].Release? || (s.pc[t].WaitStatus? && s.finished[t]) ==> s.applied[t] == s.calls[t])
  }

  /** The operations that the handler of thread `t` refers to. */
  function Refers(p: Pc): set<nat> {
    match p
    case Handle(Some(o)) => {o}
    case Apply(o, rest) => {o} + (if rest.Some? then {rest.value} else {})
    case Finish(o, rest) => {o} + (if rest.Some? then {rest.value} else {})
    case _ => {}
  }

  /** The handler only refers to operations that are not finished, whose threads are inside of the
      call that made them. */
  ghost predicate NoStaleAccess(s: Agg) {
    && Sized(s)
    && forall t, o {:trigger o in Refers(s.pc[t])} :: 0 <= t < |s.pc| && o in Refers(s.pc[t]) ==>
         0 <= o < |s.pc| && !s.finished[o] && (s.pc[o].WaitStatus? || o == t)
  }

  /** Unless all threads are idle, one of those that are not can go on. */
  ghost predicate NotStuck(s: Agg) {
    (exists t {:trigger s.pc[t]} :: 0 <= t < |s.pc| && !s.pc[t].Idle?) ==> exists u {:trigger s.pc[u]} :: CanGoOn(s, u)
  }

  predicate CanGoOn(s: Agg, u: int) {
    0 <= u < |s.pc| && !s.pc[u].Idle? && CanStep(s, u)
  }

  lemma {:induction false} InvOneHandler(s: Agg, m: seq<nat>, w: seq<nat>)
    requires Inv(s, m, w)
    ensures OneHandler(s)
  {
    hide Work, AllApart;
  }

  lemma {:induction false} InvExactlyOnce(s: Agg, m: seq<nat>, w: seq<nat>)
    requires Inv(s, m, w)
    ensures ExactlyOnce(s)
  {
    forall t: nat | t < |s.pc|
      ensures s.applied[t] <= s.calls[t] <= s.applied[t] + 1 && (s.pc[t].Idle? ==> s.applied[t] == s.calls[t])
      ensures s.pc[t].Release? || (s.pc[t].WaitStatus? && s.finished[t]) ==> s.applied[t] == s.calls[t]
    {
      Tally(s, m, w, t);
      assert Handles(s.pc[t]) ==> AtHead(s, w, s.pc[t]);
    }
  }

  lemma {:induction false} Tally(s: Agg, m: seq<nat>, w: seq<nat>, t: nat)
    requires Inv(s, m, w) && t < |s.pc|
    ensures s.applied[t] <= s.calls[t] <= s.applied[t] + 1
    ensures t in m ==> !s.pc[t].Idle? && !s.pc[t].Release? && !s.finished[t]
    ensures t in w ==> !s.pc[t].Idle? && !s.finished[t]
    ensures t !in m && t !in w ==> Apart(s, t)
  {
    hide Exclusive, Disjoint;
    if t in m {
      var i :| 0 <= i < |m| && m[i] == t;
    } else if t !in w {
      assert Apart(s, t);
    } else {
      var i :| 0 <= i < |w| && w[i] == t;
      WorkOwner(s, w);
      assert AtHead(s, w, s.pc[w[|w| - 1]]);
      assert i > 0 ==> s.applied[w[i]] + 1 == s.calls[w[i]];
    }
  }

  lemma {:induction false} InvNoStaleAccess(s: Agg, m: seq<nat>, w: seq<nat>)
    requires Inv(s, m, w)
    ensures NoStaleAccess(s)
  {
    hide Mail, AllApart, Exclusive, Disjoint;
    forall t, o | 0 <= t < |s.pc| && o in Refers(s.pc[t])
      ensures 0 <= o < |s.pc| && !s.finished[o] && (s.pc[o].WaitStatus? || o == t)
    {
      assert AtHead(s, w, s.pc[t]);
      assert o in w;
    }
  }

  lemma {:induction false} InvNotStuck(s: Agg, m: seq<nat>, w: seq<nat>)
    requires Inv(s, m, w) && Owned(s)
    ensures NotStuck(s)
  {
    InvNoStaleAccess(s, m, w);
    hide NoStaleAccess, AllApart, Disjoint;
    if t: nat :| t < |s.pc| && !s.pc[t].Idle? {
      HolderGoesOn(s, m, w);
      if CanStep(s, t) {
        assert CanGoOn(s, t);
      } else if s.pc[t].WaitStatus? {
        WaiterListed(s, m, w, t);
        if t in m {
          var l := m[|m| - 1];
          assert Leads(s.pc[l]);
          assert s.busy || CanGoOn(s, l);
        } else {
          WorkOwner(s, w);
        }
      }
    }
  }

  lemma {:induction false} WaiterListed(s: Agg, m: seq<nat>, w: seq<nat>, t: nat)
    requires Inv(s, m, w) && t < |s.pc| && s.pc[t].WaitStatus? && !s.finished[t]
    ensures t in m || t in w
  {
  }

  /** The thread that owns the handler never waits. */
  lemma {:induction false} HolderGoesOn(s: Agg, m: seq<nat>, w: seq<nat>)
    requires Inv(s, m, w) && Owned(s)
    ensures forall t {:trigger s.pc[t]} :: 0 <= t < |s.pc| && Holds(s.pc[t]) ==> CanGoOn(s, t)
    ensures s.busy ==> exists t {:trigger s.pc[t]} :: CanGoOn(s, t)
  {
    InvNoStaleAccess(s, m, w);
    forall t | 0 <= t < |s.pc| && Holds(s.pc[t]) ensures CanGoOn(s, t) {
      match s.pc[t]
      case Handle(Some(o)) => assert o in Refers(s.pc[t]);
      case Apply(o, _) => assert o in Refers(s.pc[t]);
      case Finish(o, _) => assert o in Refers(s.pc[t]);
      case _ =>
    }
  }

  /** Safety of the aggregator over all interleavings of any number of threads. */
  lemma {:induction false} Safety(threads: nat, ts: seq<nat>)
    requires Run(threads, ts).Some?
    ensures var s := Run(threads, ts).value;
            OneHandler(s) && ExactlyOnce(s) && NoStaleAccess(s) && NotStuck(s)
  {
    hide Inv, OneHandler, ExactlyOnce, NoStaleAccess, NotStuck, Owned;
    var s := Run(threads, ts).value;
    var m, w := RunInv(threads, ts);
    InvOneHandler(s, m, w);
    InvExactlyOnce(s, m, w);
    InvNoStaleAccess(s, m, w);
    InvNotStuck(s, m, w);
  }
}
