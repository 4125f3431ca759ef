/**
 Pty index allocation in fs/inode_orig.c: one global count over the id sets of all mounted
 instances. Each operation runs under allocated_ptys_lock and is one step.
 */
module PtyAllocator {
  import opened Common
  import opened MountOptions

  const ENOSPC: int := 28
  const ENOMEM: int := 12
  const EIO: int := 5

  /** pty_limit and pty_reserve. */
  datatype Config = Config(limit: int, reserve: int)

  /** A mounted instance: its ida and its options. */
  datatype Inst = Inst(live: set<nat>, opts: Opts)

  datatype Table = Table(count: int, insts: seq<Inst>)

  /** What the id allocator does on one attempt: ida_pre_get fails; ida_get_new wants a retry, fails, or works. */
  datatype Attempt = NoMemory | Again | Broken | Works

  /** The lowest id from `i` on that is not taken. */
  function FreeFrom(taken: set<nat>, i: nat): (r: nat)
    ensures i <= r && r !in taken
    ensures forall j: nat :: i <= j < r ==> j in taken
    decreases |taken|
  {
    if i !in taken then i
    else
      var others := taken - {i};
      var next := FreeFrom(others, i + 1);
      assert taken == others + {i};
      assert forall j: nat :: i <= j < next ==> j == i || j in others;
      next
  }

  /** How many ptys this instance may see in use overall. */
  function Ceiling(c: Config, inst: Inst): int {
    c.limit - if inst.opts.newinstance then c.reserve else 0
  }

  /** One attempt of devpts_new_index on instance `i`; None means retry. */
  function TryNew(c: Config, t: Table, i: nat, a: Attempt): (Table, Option<int>)
    requires i < |t.insts|
  {
    var inst := t.insts[i];
    if a.NoMemory? then (t, Some(-ENOMEM))
    else if t.count >= Ceiling(c, inst) then (t, Some(-ENOSPC))
    else if a.Again? then (t, None)
    else if a.Broken? then (t, Some(-EIO))
    else
      var index := FreeFrom(inst.live, 0);
      if index >= inst.opts.max then (t, Some(-ENOSPC))
      else (Table(t.count + 1, t.insts[i := inst.(live := inst.live + {index})]), Some(index))
  }

  /** The retry loop of devpts_new_index, undisturbed; the allocator works once `attempts` are used up. */
  function NewLoop(c: Config, t: Table, i: nat, attempts: seq<Attempt>): (Table, int)
    requires i < |t.insts|
    decreases |attempts|
  {
    var (t', r) := TryNew(c, t, i, if attempts == [] then Works else attempts[0]);
    match r
    case Some(ret) => (t', ret)
    case None => NewLoop(c, t, i, attempts[1..])
  }

  function KillIndex(t: Table, i: nat, index: nat): Table
    requires i < |t.insts|
  {
    Table(t.count - 1, t.insts[i := t.insts[i].(live := t.insts[i].live - {index})])
  }

  function Remount(t: Table, i: nat, data: Option<string>): Table
    requires i < |t.insts|
  {
    t.(insts := t.insts[i := t.insts[i].(opts := Parse(t.insts[i].opts, PARSE_REMOUNT, data).0)])
  }

  /** devpts_mount. The file never sets devpts_mnt, so compare_init_pts_sb matches no mounted instance
      and a mount makes a new one with or without newinstance. */
  function Mount(t: Table, data: Option<string>): Table {
    var (o, err) := Parse(Defaults(false), PARSE_MOUNT, data);
    if err != 0 then t else t.(insts := t.insts + [Inst({}, o)])
  }

  // ---- in place ----

  class PtyTable {
    const c: Config
    var count: int
    var insts: seq<Inst>

    ghost function View(): Table
      reads this
    {
      Table(count, insts)
    }

    constructor (c: Config)
      ensures View() == Table(0, []) && this.c == c
    {
      this.c, count, insts := c, 0, [];
    }

    /** devpts_new_index, retry loop included; the allocator works once `attempts` are used up. */
    method NewIndex(i: nat, attempts: seq<Attempt>) returns (ret: int)
      requires i < |insts|
      modifies this
      ensures ret < 0 ==> View() == old(View())
      ensures ret >= 0 ==>
                && ret !in old(insts[i].live) && ret < old(insts[i].opts.max) && old(count) < Ceiling(c, old(insts[i]))
                && (forall j :: 0 <= j < ret ==> j in old(insts[i].live))
                && count == old(count) + 1
                && insts == old(insts)[i := old(insts[i]).(live := old(insts[i].live) + {ret})]
      ensures (View(), ret) == NewLoop(c, old(View()), i, attempts)
    {
      var k := 0;
      while true
        invariant 0 <= k <= |attempts| && View() == old(View())
        invariant NewLoop(c, View(), i, attempts[k..]) == NewLoop(c, View(), i, attempts)
        decreases |attempts| - k
      {
        var a := if k < |attempts| then attempts[k] else Works;
        if a == NoMemory {
          return -ENOMEM;
        }
        if count >= c.limit - (if insts[i].opts.newinstance then c.reserve else 0) {
          return -ENOSPC;
        }
        if a == Again {
          k := k + 1;
          continue;
        }
        if a == Broken {
          return -EIO;
        }
        var index := FreeFrom(insts[i].live, 0);
        var inst := insts[i];
        insts := insts[i := inst.(live := inst.live + {index})];
        if index >= inst.opts.max {
          insts := insts[i := inst.(live := insts[i].live - {index})];
          assert inst.live + {index} - {index} == inst.live;
          assert insts == old(insts);
          return -ENOSPC;
        }
        count := count + 1;
        return index;
      }
    }

    method Kill(i: nat, index: nat)
      requires i < |insts|
      modifies this
      ensures View() == KillIndex(old(View()), i, index)
    {
      insts := insts[i := insts[i].(live := insts[i].live - {index})];
      count := count - 1;
    }
  }

  // ---- when an allocation succeeds ----

  /** A working attempt fails for lack of space exactly if the count has reached the ceiling or all
      ids below `max` are taken; otherwise it takes the lowest free id, below `max`, and only it. */
  lemma NewIndexExactly(c: Config, t: Table, i: nat)
    requires i < |t.insts|
    ensures var (t', r), inst := TryNew(c, t, i, Works), t.insts[i];
            var full := || t.count >= c.limit - (if inst.opts.newinstance then c.reserve else 0)
                        || (forall j: nat :: j < inst.opts.max ==> j in inst.live);
            && r.Some?
            && (full <==> r == Some(-ENOSPC)) && (full ==> t' == t)
            && (!full ==>
                  && 0 <= r.value < inst.opts.max && r.value !in inst.live
                  && t'.count == t.count + 1 && t'.insts == t.insts[i := inst.(live := inst.live + {r.value})]
                  && forall j: nat :: j < r.value ==> j in inst.live)
  {
    var index := FreeFrom(t.insts[i].live, 0);
    assert index !in t.insts[i].live;
  }

  /** No failing attempt changes anything. Without memory it is -ENOMEM, then, at the ceiling, -ENOSPC,
      whatever the id allocator would do; below it a wish for a retry is met, and other trouble is -EIO. */
  lemma FailureChangesNothing(c: Config, t: Table, i: nat, a: Attempt)
    requires i < |t.insts|
    ensures var (t', r) := TryNew(c, t, i, a);
            var ceiling := c.limit - (if t.insts[i].opts.newinstance then c.reserve else 0);
            && (r.None? || r.value < 0 ==> t' == t)
            && (a.NoMemory? ==> r == Some(-12))
            && (!a.NoMemory? && t.count >= ceiling ==> r == Some(-28))
            && (a.Again? && t.count < ceiling ==> r == None)
            && (a.Broken? && t.count < ceiling ==> r == Some(-5))
  {
  }

  /** The retry loop ends with the first attempt that does not ask for a retry. */
  lemma {:induction false} RetriesEnd(c: Config, t: Table, i: nat, attempts: seq<Attempt>, k: nat)
    requires i < |t.insts| && k <= |attempts|
    requires forall j :: 0 <= j < k ==> attempts[j].Again?
    requires TryNew(c, t, i, if k < |attempts| then attempts[k] else Works).1.Some?
    ensures var (t', r) := TryNew(c, t, i, if k < |attempts| then attempts[k] else Works);
            t.count < c.limit - (if t.insts[i].opts.newinstance then c.reserve else 0) ==>
              NewLoop(c, t, i, attempts) == (t', r.value)
    decreases k
  {
    if k > 0 && t.count < Ceiling(c, t.insts[i]) {
      assert attempts[0].Again?;
      RetriesEnd(c, t, i, attempts[1..], k - 1);
    }
  }

  /** Freeing an index just allocated leaves the table as it was before. */
  lemma KillUndoesNew(c: Config, t: Table, i: nat, a: Attempt)
    requires i < |t.insts| && TryNew(c, t, i, a).1.Some? && TryNew(c, t, i, a).1.value >= 0
    ensures KillIndex(TryNew(c, t, i, a).0, i, TryNew(c, t, i, a).1.value) == t
  {
    var inst, index := t.insts[i], FreeFrom(t.insts[i].live, 0);
    assert inst.live + {index} - {index} == inst.live;
  }

  /** An index freed below all other free ones is the next to be allocated, and that restores the
      table; unless the ceiling or `max` has come down meanwhile. */
  lemma NewUndoesKill(c: Config, t: Table, i: nat, index: nat)
    requires i < |t.insts| && index in t.insts[i].live && forall j: nat :: j < index ==> j in t.insts[i].live
    ensures TryNew(c, KillIndex(t, i, index), i, Works) ==
            if t.count - 1 < Ceiling(c, t.insts[i]) && index < t.insts[i].opts.max then (t, Some(index))
            else (KillIndex(t, i, index), Some(-ENOSPC))
  {
    var inst, freed := t.insts[i], KillIndex(t, i, index);
    assert FreeFrom(inst.live - {index}, 0) == index;
    assert inst.live - {index} + {index} == inst.live;
    assert freed.insts[i := inst] == t.insts;
  }

  // ---- accounting over runs ----

  /** Ids held by all instances, or only by those mounted with newinstance. */
  function Total(insts: seq<Inst>, private: bool): nat
    decreases |insts|
  {
    if insts == [] then 0
    else Total(insts[..|insts| - 1], private) + Held(insts[|insts| - 1], private)
  }

  function Held(inst: Inst, private: bool): nat {
    if private && !inst.opts.newinstance then 0 else |inst.live|
  }

  lemma {:induction false} TotalUpdate(insts: seq<Inst>, i: nat, x: Inst, private: bool)
    requires i < |insts|
    ensures Total(insts[i := x], private) + Held(insts[i], private) == Total(insts, private) + Held(x, private)
    decreases |insts|
  {
    var n, u := |insts| - 1, insts[i := x];
    if i < n {
      assert u[..n] == insts[..n][i := x];
      TotalUpdate(insts[..n], i, x, private);
    } else {
      assert u[..n] == insts[..n];
    }
  }

  lemma {:induction false} PrivateIsLess(insts: seq<Inst>)
    ensures Total(insts, true) <= Total(insts, false)
    decreases |insts|
  {
    if insts != [] { PrivateIsLess(insts[..|insts| - 1]); }
  }

  datatype Op = New(i: nat, a: Attempt) | Free(i: nat, index: nat)
              | DoRemount(i: nat, data: Option<string>) | DoMount(data: Option<string>)

  /** The pty layer frees only an id it got from this instance. */
  predicate Allowed(t: Table, op: Op) {
    match op
    case New(i, _) => i < |t.insts|
    case Free(i, index) => i < |t.insts| && index in t.insts[i].live
    case DoRemount(i, _) => i < |t.insts|
    case DoMount(_) => true
  }

  function Apply(c: Config, t: Table, op: Op): Table {
    if !Allowed(t, op) then t
    else
      match op
      case New(i, a) => TryNew(c, t, i, a).0
      case Free(i, index) => KillIndex(t, i, index)
      case DoRemount(i, data) => Remount(t, i, data)
      case DoMount(data) => Mount(t, data)
  }

  function Run(c: Config, t: Table, ops: seq<Op>): Table
    decreases |ops|
  {
    if ops == [] then t else Run(c, Apply(c, t, ops[0]), ops[1..])
  }

  function NotNegative(x: int): nat {
    if x < 0 then 0 else x
  }

  predicate Inv(c: Config, t: Table) {
    && t.count == Total(t.insts, false)
    && t.count <= NotNegative(c.limit)
    && Total(t.insts, true) <= NotNegative(c.limit - c.reserve)
  }

  lemma NewKeepsInv(c: Config, t: Table, i: nat, a: Attempt)
    requires Inv(c, t) && c.reserve >= 0 && i < |t.insts|
    ensures Inv(c, TryNew(c, t, i, a).0)
  {
    var (t', r) := TryNew(c, t, i, a);
    if t' != t {
      var x := t'.insts[i];
      assert |x.live| == |t.insts[i].live| + 1;
      TotalUpdate(t.insts, i, x, false);
      TotalUpdate(t.insts, i, x, true);
      PrivateIsLess(t.insts);
    }
  }

  lemma FreeKeepsInv(c: Config, t: Table, i: nat, index: nat)
    requires Inv(c, t) && i < |t.insts| && index in t.insts[i].live
    ensures Inv(c, KillIndex(t, i, index))
  {
    var x := KillIndex(t, i, index).insts[i];
    assert |x.live| == |t.insts[i].live| - 1;
    TotalUpdate(t.insts, i, x, false);
    TotalUpdate(t.insts, i, x, true);
  }

  lemma RemountKeepsInv(c: Config, t: Table, i: nat, data: Option<string>)
    requires Inv(c, t) && i < |t.insts|
    ensures Inv(c, Remount(t, i, data))
    ensures Remount(t, i, data).insts[i].opts.newinstance == t.insts[i].opts.newinstance
    ensures var t' := Remount(t, i, data);
            && t'.count == t.count && |t'.insts| == |t.insts| && t'.insts[i].live == t.insts[i].live
            && t'.insts[i].opts == Parse(t.insts[i].opts, PARSE_REMOUNT, data).0
            && forall j :: 0 <= j < |t.insts| && j != i ==> t'.insts[j] == t.insts[j]
  {
    var o, x := t.insts[i].opts, Remount(t, i, data).insts[i];
    ParseProduces(Defaults(o.newinstance), PARSE_REMOUNT, data);
    TotalUpdate(t.insts, i, x, false);
    TotalUpdate(t.insts, i, x, true);
  }

  lemma MountKeepsInv(c: Config, t: Table, data: Option<string>)
    requires Inv(c, t)
    ensures Inv(c, Mount(t, data))
    ensures var t', n := Mount(t, data), |t.insts|;
            var (opts, err) := Parse(Defaults(false), PARSE_MOUNT, data);
            if err != 0 then t' == t
            else t'.count == t.count && |t'.insts| == n + 1 && t'.insts[..n] == t.insts
                 && t'.insts[n].live == {} && t'.insts[n].opts == opts && Produced(opts)
  {
    ParseProduces(Defaults(false), PARSE_MOUNT, data);
    hide ParseFrom;
    var t' := Mount(t, data);
    if t' != t {
      assert t'.insts[..|t'.insts| - 1] == t.insts;
    }
  }

  /** Over every run with any number of instances: the count is the total of all id sets, it never
      exceeds pty_limit, and the newinstance mounts together never hold more than
      pty_limit - pty_reserve. */
  lemma {:induction false} Accounting(c: Config, t: Table, ops: seq<Op>)
    requires Inv(c, t) && c.reserve >= 0
    ensures Inv(c, Run(c, t, ops))
    decreases |ops|
  {
    if ops != [] {
      if Allowed(t, ops[0]) {
        match ops[0]
        case New(i, a) => NewKeepsInv(c, t, i, a);
        case Free(i, index) => FreeKeepsInv(c, t, i, index);
        case DoRemount(i, data) => RemountKeepsInv(c, t, i, data);
        case DoMount(data) => MountKeepsInv(c, t, data);
      }
      Accounting(c, Apply(c, t, ops[0]), ops[1..]);
    }
  }

  /** From boot: no instance mounted, nothing allocated. */
  lemma AccountingFromBoot(c: Config, ops: seq<Op>)
    requires c.limit >= c.reserve >= 0
    ensures var t := Run(c, Table(0, []), ops);
            && t.count == Total(t.insts, false) && t.count <= c.limit
            && Total(t.insts, true) <= c.limit - c.reserve
  {
    Accounting(c, Table(0, []), ops);
  }

  // ---- inode numbers ----

  const ROOT_INO: nat := 1
  const PTMX_INO: nat := 2

  function Ino(index: nat): nat {
    index + 3
  }

  function Inodes(live: set<nat>): set<nat> {
    {ROOT_INO, PTMX_INO} + set j | j in live :: Ino(j)
  }

  lemma InodeNumbers(live: set<nat>)
    ensures 1 in Inodes(live) && 2 in Inodes(live)
    ensures forall j :: j in live ==> j + 3 in Inodes(live)
  {
    assert forall j :: j in live ==> Ino(j) == j + 3;
  }

  /** The root, ptmx and the live ptys of an instance all have different inode numbers. */
  lemma {:induction false} InodesAreDistinct(live: set<nat>)
    ensures |Inodes(live)| == |live| + 2
    decreases |live|
  {
    if live == {} {
      assert Inodes(live) == {ROOT_INO, PTMX_INO};
    } else {
      var j :| j in live;
      InodesAreDistinct(live - {j});
      assert Inodes(live) == Inodes(live - {j}) + {Ino(j)};
    }
  }
}
