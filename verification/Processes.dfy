/**
 * The process table: a hash table and a doubly linked list over the same processes, with
 * reference counts kept by hand.
 */
module Processes {
  import opened Sequences

  class ProcessControlBlock {
    var pid: int
    var parent: ProcessControlBlock?
    var prev: ProcessControlBlock?
    var next: ProcessControlBlock?
    var refCount: int

    constructor (pid: int, parent: ProcessControlBlock?, next: ProcessControlBlock?, refCount: int)
      ensures this.pid == pid && this.parent == parent && this.prev == null && this.next == next && this.refCount == refCount
    {
      this.pid, this.parent, this.prev, this.next, this.refCount := pid, parent, null, next, refCount;
    }
  }

  /** The parents of the processes in s, with multiplicity. */
  ghost function ParentBag(s: seq<ProcessControlBlock>): multiset<ProcessControlBlock?>
    reads (set x | x in s)`parent
  {
    if s == [] then multiset{} else multiset{s[0].parent} + ParentBag(s[1..])
  }

  ghost function PidsOf(s: seq<ProcessControlBlock>): (ps: seq<int>)
    reads (set x | x in s)`pid
    ensures |ps| == |s| && forall i {:trigger ps[i]} :: 0 <= i < |s| ==> ps[i] == s[i].pid
  {
    if s == [] then [] else [s[0].pid] + PidsOf(s[1..])
  }

  lemma {:induction false} BagWithout(s: seq<ProcessControlBlock>, i: nat)
    requires i < |s|
    ensures ParentBag(s) == ParentBag(RemoveAt(s, i)) + multiset{s[i].parent}
    decreases |s|
  {
    if i == 0 {
      assert RemoveAt(s, 0) == s[1..];
    } else {
      BagWithout(s[1..], i - 1);
      assert RemoveAt(s, i)[1..] == RemoveAt(s[1..], i - 1);
      assert RemoveAt(s, i)[0] == s[0];
    }
  }

  /** BagWithout, as a fact that can be looked up in an earlier state. */
  ghost predicate BagSplit(s: seq<ProcessControlBlock>, i: nat)
    requires i < |s|
    reads (set x | x in s)`parent
    ensures BagSplit(s, i) && ParentBag(s) == ParentBag(RemoveAt(s, i)) + multiset{s[i].parent}
  {
    BagWithout(s, i);
    true
  }

  lemma {:induction false} BagHas(s: seq<ProcessControlBlock>, i: nat)
    requires i < |s|
    ensures s[i].parent in ParentBag(s)
  {
    if i > 0 { BagHas(s[1..], i - 1); }
  }

  lemma {:induction false} BagFrom(s: seq<ProcessControlBlock>, x: ProcessControlBlock)
    requires forall i :: 0 <= i < |s| ==> s[i].parent != x
    ensures ParentBag(s)[x] == 0
  {
    if s != [] { BagFrom(s[1..], x); }
  }

  lemma WithoutAt<T>(s: seq<T>, i: nat)
    requires i < |s| && NoDup(s)
    ensures NoDup(RemoveAt(s, i)) && s[i] !in RemoveAt(s, i)
    ensures forall x :: x in RemoveAt(s, i) <==> x in s && x != s[i]
    ensures forall k {:trigger RemoveAt(s, i)[k]} :: 0 <= k < |s| - 1 ==> RemoveAt(s, i)[k] == s[if k < i then k else k + 1]
  {
    var t := RemoveAt(s, i);
    assert forall k :: 0 <= k < |t| ==> t[k] == s[if k < i then k else k + 1];
    forall x | x in s && x != s[i] ensures x in t {
      var k :| 0 <= k < |s| && s[k] == x;
      assert t[if k < i then k else k - 1] == x;
    }
  }

  /** Position of a member. */
  ghost function IndexOf<T>(s: seq<T>, x: T): (i: nat)
    requires x in s
    ensures i < |s| && s[i] == x
  {
    var i :| 0 <= i < |s| && s[i] == x; i
  }

  lemma NewInFront(s: seq<ProcessControlBlock>, x: ProcessControlBlock)
    ensures ParentBag([x] + s) == multiset{x.parent} + ParentBag(s)
  {
    assert ([x] + s)[1..] == s;
  }

  /** x is gone from the list; if it was the tail, one more hold counts on the new tail. */
  ghost predicate Removed(before: seq<ProcessControlBlock>, holds: multiset<ProcessControlBlock>,
                          after: seq<ProcessControlBlock>, holds': multiset<ProcessControlBlock>, x: ProcessControlBlock)
  {
    && x in before && |before| > 1 && after == RemoveAt(before, IndexOf(before, x))
    && holds' == holds + (if x == before[|before| - 1] then multiset{after[|after| - 1]} else multiset{})
  }

  lemma RemovedIs(before: seq<ProcessControlBlock>, holds: multiset<ProcessControlBlock>, x: ProcessControlBlock, i: nat)
    requires i < |before| && |before| > 1 && before[i] == x && x in before && i == IndexOf(before, x) && (x == before[|before| - 1] <==> i == |before| - 1)
    ensures var after := RemoveAt(before, i);
      && |after| == |before| - 1
      && Removed(before, holds, after, holds + (if i == |before| - 1 then multiset{after[|after| - 1]} else multiset{}), x)
  {}

  class Task {
    var processes: map<int, ProcessControlBlock>
    var lastUsedPID: int
    var firstProcess: ProcessControlBlock?

    /** The processes in list order; those not deleted; and the references held outside the table. */
    ghost var list: seq<ProcessControlBlock>
    ghost var alive: set<ProcessControlBlock>
    ghost var holds: multiset<ProcessControlBlock>

    /** first, next and prev link exactly the processes of the list, in order. */
    ghost predicate Linked()
      reads `list, `alive, `firstProcess, alive`prev, alive`next
    {
      && NoDup(list) && (forall i :: 0 <= i < |list| ==> list[i] in alive)
      && firstProcess == (if list == [] then null else list[0])
      && (forall i {:trigger list[i].prev} :: 0 <= i < |list| ==> list[i].prev == if i == 0 then null else list[i - 1])
      && (forall i {:trigger list[i].next} :: 0 <= i < |list| ==> list[i].next == if i == |list| - 1 then null else list[i + 1])
    }

    /** The hash table holds exactly the processes of the list, by their pids. */
    ghost predicate Tabled()
      reads `list, `alive, `processes, `lastUsedPID, alive`pid
    {
      && (forall x :: x in list ==> x in alive && x.pid in processes && processes[x.pid] == x)
      && (forall k :: k in processes ==> k <= lastUsedPID && processes[k] in list && processes[k] in alive && processes[k].pid == k)
    }

    /** The pointers to x: from the table, first or next, prev, the parent fields, and from outside. */
    ghost function Pointers(x: ProcessControlBlock): int
      reads `list, `holds, (set p | p in list)`parent
    {
      (if x in list then 2 + (if x == list[|list| - 1] then 0 else 1) else 0) + ParentBag(list)[x] + holds[x]
    }

    ghost predicate Counted(x: ProcessControlBlock)
      reads `list, `holds, x`refCount, (set p | p in list)`parent
    {
      x.refCount == Pointers(x) > 0
    }

    ghost predicate Valid()
      reads this, alive, (set p | p in list)`parent
    {
      && Linked() && Tabled()
      && (forall x {:trigger Counted(x)} :: x in alive ==> Counted(x))
      && (forall x {:trigger x.parent} :: x in list && x.parent != null ==> x.parent in alive && x.parent != x)
      && (forall x :: x in holds ==> x in alive)
    }

    /** Task::init */
    constructor ()
      ensures Valid() && list == [] && holds == multiset{} && fresh(alive)
    {
      processes, lastUsedPID, firstProcess := map[], 0, null;
      list, alive, holds := [], {}, multiset{};
    }

    /**
     * CreateNewTask, for the first process; `found` tells whether its terminal and its working
     * directory can be resolved.  If not, the table is left with a process that is on no list.
     */
    method CreateNewTask(found: bool) returns (process: ProcessControlBlock?)
      requires Valid() && list == []
      modifies this
      ensures Valid() <==> found
      ensures found ==> process != null && fresh(process) && list == [process] && holds == old(holds) && alive == old(alive) + {process}
      ensures !found ==> process == null && lastUsedPID in processes && processes[lastUsedPID] !in list
    {
      hide Linked, Counted, ParentBag;
      lastUsedPID := lastUsedPID + 1;
      process := new ProcessControlBlock(lastUsedPID, null, null, 2);
      processes := processes[lastUsedPID := process];
      if !found {
        assert processes[lastUsedPID] !in list;
        assert !Tabled();
        process := null;
        return;
      }
      firstProcess := process;
      list := [process];
      alive := alive + {process};
      FirstValid(process);
    }

    twostate lemma FirstValid(new p: ProcessControlBlock)
      requires old(Valid()) && old(list) == [] && p !in old(alive) && list == [p] && firstProcess == p && alive == old(alive) + {p}
      requires holds == old(holds) && lastUsedPID == old(lastUsedPID) + 1 == p.pid && processes == old(processes)[p.pid := p]
      requires p.parent == null && p.prev == null && p.next == null && p.refCount == 2
      requires forall x :: x in old(alive) ==> x.refCount == old(x.refCount)
      ensures Valid()
    {
      assert ParentBag([p]) == multiset{null} + ParentBag([]) by { assert [p][1..] == []; }
      forall x | x in alive ensures Counted(x) {
        if x != p { assert old(Counted(x)); }
      }
    }

    method ReferenceProcess(x: ProcessControlBlock)
      modifies x`refCount
      ensures x.refCount == old(x.refCount) + 1
    {
      x.refCount := x.refCount + 1;
    }

    /** putProcess of a process that is there: it is deleted when its last reference goes. */
    method PutProcess(x: ProcessControlBlock)
      modifies x`refCount, `alive
      ensures x.refCount == old(x.refCount) - 1
      ensures alive == if x.refCount == 0 then old(alive) - {x} else old(alive)
    {
      x.refCount := x.refCount - 1;
      if x.refCount == 0 {
        alive := alive - {x};
      }
    }

    /** getProcess: one more reference held outside, if there is such a process. */
    method GetProcess(pid: int) returns (p: ProcessControlBlock?)
      requires Valid()
      modifies this, alive`refCount
      ensures Valid() && list == old(list) && alive == old(alive) && lastUsedPID == old(lastUsedPID)
      ensures p == if pid in processes then processes[pid] else null
      ensures holds == if p == null then old(holds) else old(holds) + multiset{p}
    {
      hide Linked, ParentBag;
      p := if pid in processes then processes[pid] else null;
      if p != null {
        ReferenceProcess(p);
        holds := holds + multiset{p};
        forall x | x in alive ensures Counted(x) { assert old(Counted(x)); }
      }
    }

    twostate lemma LinksStay()
      requires old(Linked()) && list == old(list) && firstProcess == old(firstProcess)
      requires forall x :: x in list ==> x in alive && x.prev == old(x.prev) && x.next == old(x.next)
      ensures Linked()
    {
      forall i | 0 <= i < |list| ensures list[i].prev == (if i == 0 then null else list[i - 1]) && list[i].next == (if i == |list| - 1 then null else list[i + 1]) {
        assert old(list[i].prev) == (if i == 0 then null else list[i - 1]);
        assert old(list[i].next) == (if i == |list| - 1 then null else list[i + 1]);
      }
    }

    twostate lemma TableStays()
      requires old(Tabled()) && list == old(list) && processes == old(processes) && lastUsedPID == old(lastUsedPID)
      requires forall x :: x in list ==> x in alive && x.pid == old(x.pid)
      ensures Tabled()
    {}

    /** putProcess of a reference held outside. */
    method DropHold(p: ProcessControlBlock)
      requires Valid() && p in holds
      modifies this, alive`refCount
      ensures Valid() && list == old(list) && holds == old(holds) - multiset{p} && lastUsedPID == old(lastUsedPID)
      ensures alive == old(alive) || (p !in list && alive == old(alive) - {p})
    {
      hide Valid, ParentBag, Linked, Tabled;
      HoldCounts(p);
      PutProcess(p);
      holds := holds - multiset{p};
      DroppedValid(p);
    }

    lemma HoldCounts(p: ProcessControlBlock)
      requires Valid() && p in holds
      ensures p in alive && p.refCount == Pointers(p) > 0 && (p in list ==> p.refCount > 2)
    {
      hide ParentBag;
      assert Counted(p);
    }

    twostate lemma DroppedValid(p: ProcessControlBlock)
      requires old(Valid()) && p in old(alive) && p in old(holds) && list == old(list) && processes == old(processes)
      requires lastUsedPID == old(lastUsedPID) && firstProcess == old(firstProcess) && holds == old(holds) - multiset{p}
      requires alive == (if p.refCount == 0 then old(alive) - {p} else old(alive)) && (p in list ==> p.refCount > 0)
      requires forall x :: x in old(alive) ==>
        x.refCount == old(x.refCount) - (if x == p then 1 else 0) && x.prev == old(x.prev) && x.next == old(x.next) && x.pid == old(x.pid) && x.parent == old(x.parent)
      ensures Valid()
    {
      hide ParentBag, Linked, Tabled, Valid, Counted, NoDup;
      FrontFacts();
      LinksStay();
      TableStays();
      forall x | x in alive ensures Counted(x) { DroppedCount(p, x); }
      forall x | x in list && x.parent != null ensures x.parent in alive && x.parent != x { DroppedParent(p, x); }
      forall x | x in holds ensures x in alive { DroppedHold(p, x); }
      WholeValid();
    }

    /** The parts of Valid, put together. */
    lemma WholeValid()
      requires Linked() && Tabled() && forall x {:trigger Counted(x)} :: x in alive ==> Counted(x)
      requires forall x {:trigger x.parent} :: x in list && x.parent != null ==> x.parent in alive && x.parent != x
      requires forall x :: x in holds ==> x in alive
      ensures Valid()
    {
      hide ParentBag, Linked, Tabled, Counted;
    }

    /** A dropped process is deleted only when nothing points to it. */
    twostate lemma DroppedCount(new p: ProcessControlBlock, new x: ProcessControlBlock)
      requires old(Valid()) && p in old(holds) && list == old(list) && holds == old(holds) - multiset{p} && x in old(alive)
      requires forall y :: y in list ==> y.parent == old(y.parent)
      requires x.refCount == old(x.refCount) - (if x == p then 1 else 0)
      ensures x.refCount == Pointers(x) && x.refCount >= 0 && (x != p || x.refCount != 0 ==> Counted(x))
    {
      hide ParentBag, Linked, Tabled;
      assert old(Counted(x));
      OldBag(list);
    }

    twostate lemma DroppedParent(new p: ProcessControlBlock, new x: ProcessControlBlock)
      requires old(Valid()) && p in old(holds) && list == old(list) && holds == old(holds) - multiset{p} && x in list
      requires alive == (if p.refCount == 0 then old(alive) - {p} else old(alive)) && p in old(alive) && x.parent != null
      requires forall y :: y in list ==> y.parent == old(y.parent)
      requires p.refCount == old(p.refCount) - 1
      ensures x.parent in alive && x.parent != x
    {
      hide ParentBag, Linked, Tabled, Counted;
      BagHas(list, IndexOf(list, x));
      DroppedCount(p, p);
    }

    twostate lemma DroppedHold(new p: ProcessControlBlock, new x: ProcessControlBlock)
      requires old(Valid()) && p in old(holds) && list == old(list) && holds == old(holds) - multiset{p} && x in holds
      requires alive == (if p.refCount == 0 then old(alive) - {p} else old(alive)) && p in old(alive)
      requires forall y :: y in list ==> y.parent == old(y.parent)
      requires p.refCount == old(p.refCount) - 1
      ensures x in alive
    {
      hide ParentBag, Linked, Tabled, Counted;
      DroppedCount(p, p);
    }

    /** NewProcess: a child of a listed process, put in front. */
    method NewProcess(parent: ProcessControlBlock) returns (process: ProcessControlBlock)
      requires Valid() && parent in list
      modifies this, alive`refCount, alive`prev
      ensures Valid() && fresh(process) && list == [process] + old(list) && holds == old(holds) && alive == old(alive) + {process}
      ensures process.parent == parent && process.pid == lastUsedPID == old(lastUsedPID) + 1
    {
      hide Valid, ParentBag, Linked, Tabled;
      Opened();
      lastUsedPID := lastUsedPID + 1;
      ReferenceProcess(parent);
      process := new ProcessControlBlock(lastUsedPID, parent, firstProcess, 3);
      processes := processes[lastUsedPID := process];
      firstProcess.prev := process;
      firstProcess := process;
      list := [process] + list;
      alive := alive + {process};
      FrontValid(process, parent);
    }

    lemma Opened()
      requires Valid()
      ensures NoDup(list) && (forall x :: x in list ==> x in alive)
      ensures firstProcess == (if list == [] then null else list[0])
    {}

    twostate lemma FrontValid(new p: ProcessControlBlock, parent: ProcessControlBlock)
      requires old(Valid()) && parent in old(list) && p !in old(alive)
      requires list == [p] + old(list) && alive == old(alive) + {p} && holds == old(holds) && firstProcess == p
      requires lastUsedPID == old(lastUsedPID) + 1 == p.pid && processes == old(processes)[p.pid := p]
      requires p.prev == null && p.next == old(firstProcess) && p.parent == parent && p.refCount == 3
      requires forall x :: x in old(alive) ==>
        && x.parent == old(x.parent) && x.pid == old(x.pid) && x.next == old(x.next)
        && x.refCount == old(x.refCount) + (if x == parent then 1 else 0)
        && x.prev == if x == old(firstProcess) then p else old(x.prev)
      ensures Valid()
    {
      hide ParentBag, Linked, Tabled, Counted, NoDup, Valid;
      FrontFacts();
      LinkedInFront(p);
      TabledInFront(p);
      FrontCounts(p);
      FrontRest(p);
    }

    twostate lemma FrontRest(new p: ProcessControlBlock)
      requires old(Valid()) && list == [p] + old(list) && alive == old(alive) + {p} && holds == old(holds)
      requires p.parent in old(list) && p !in old(alive)
      requires forall x :: x in old(alive) ==> x.parent == old(x.parent)
      requires Linked() && Tabled() && forall x {:trigger Counted(x)} :: x in alive ==> Counted(x)
      ensures Valid()
    {
      hide ParentBag, Linked, Tabled, Counted, NoDup;
      FrontFacts();
      forall x | x in list && x.parent != null ensures x.parent in alive && x.parent != x {
        if x != p { assert x in old(list); assert old(x.parent) == x.parent; }
      }
    }

    twostate lemma FrontCounts(new p: ProcessControlBlock)
      requires old(Valid()) && old(list) != [] && p !in old(alive) && p.parent != p && p !in old(list)
      requires list == [p] + old(list) && alive == old(alive) + {p} && holds == old(holds) && p.refCount == 3
      requires forall x :: x in old(alive) ==> x.parent == old(x.parent) && x.refCount == old(x.refCount) + (if x == p.parent then 1 else 0)
      ensures forall x {:trigger Counted(x)} :: x in alive ==> Counted(x)
    {
      hide ParentBag, Linked, Tabled, Counted;
      FrontFacts();
      NewInFront(old(list), p);
      OldBag(old(list));
      NewCounted(p);
      forall x | x in alive ensures Counted(x) {
        if x != p { OldCounted(x); CountedInFront(p, x); }
      }
    }

    twostate lemma OldCounted(x: ProcessControlBlock)
      requires old(Valid()) && x in old(alive)
      ensures old(Counted(x)) && old(x.refCount) > 0
    {}

    twostate lemma FrontFacts()
      requires old(Valid())
      ensures NoDup(old(list)) && (forall x :: x in old(list) ==> x in old(alive))
      ensures old(firstProcess) == (if old(list) == [] then null else old(list)[0])
      ensures old(Linked()) && old(Tabled()) && forall x :: x in old(list) ==> old(x.parent) == null || old(x.parent) in old(alive)
    {}

    twostate lemma CountedInFront(new p: ProcessControlBlock, x: ProcessControlBlock)
      requires x in old(alive) && old(Counted(x)) && old(list) != [] && x != p && list == [p] + old(list) && holds == old(holds)
      requires ParentBag(list) == multiset{p.parent} + old(ParentBag(list))
      requires x.refCount == old(x.refCount) + (if x == p.parent then 1 else 0)
      ensures Counted(x)
    {
      hide ParentBag;
      assert list[|list| - 1] == old(list)[|old(list)| - 1];
    }

    lemma NewCounted(p: ProcessControlBlock)
      requires |list| > 1 && list[0] == p && NoDup(list) && p !in holds && p.refCount == 3 && forall x :: x in list ==> x.parent != p
      ensures Counted(p)
    {
      BagFrom(list, p);
    }

    twostate lemma OldBag(s: seq<ProcessControlBlock>)
      requires forall x :: x in s ==> x.parent == old(x.parent)
      ensures ParentBag(s) == old(ParentBag(s))
    {}

    twostate lemma LinkedInFront(new x: ProcessControlBlock)
      requires old(Linked()) && old(list) != [] && x !in old(list) && list == [x] + old(list) && alive == old(alive) + {x}
      requires firstProcess == x && x.prev == null && x.next == old(list)[0] && old(list)[0].prev == x
      requires forall p :: p in old(list) ==> p.next == old(p.next) && (p != old(list)[0] ==> p.prev == old(p.prev))
      ensures Linked()
    {
      forall i | 0 <= i < |list| ensures list[i].prev == (if i == 0 then null else list[i - 1]) && list[i].next == (if i == |list| - 1 then null else list[i + 1]) {
        if i > 0 {
          var j := i - 1;
          assert list[i] == old(list)[j];
          assert old(list[j].prev) == (if j == 0 then null else old(list)[j - 1]);
          assert old(list[j].next) == (if j == |old(list)| - 1 then null else old(list)[j + 1]);
        }
      }
    }

    twostate lemma TabledInFront(new x: ProcessControlBlock)
      requires old(Tabled()) && x !in old(list) && list == [x] + old(list) && alive == old(alive) + {x}
      requires lastUsedPID == old(lastUsedPID) + 1 == x.pid && processes == old(processes)[x.pid := x]
      requires forall p :: p in old(list) ==> p.pid == old(p.pid)
      ensures Tabled()
    {}

    /** p is between its neighbours, and is counted on as often as the links to it. */
    ghost predicate InPlace(p: ProcessControlBlock)
      reads `firstProcess, `alive, p, p.prev, p.next
    {
      && p in alive
      && (firstProcess == p <==> p.prev == null) && (p.prev == null ==> p.next != null)
      && (p.prev != null ==> p.prev in alive && p.prev != p && p.prev.next == p && p.prev != p.next)
      && (p.next != null ==> p.next in alive && p.next != p && p.next.prev == p)
      && p.refCount > (if p.next == null then 1 else 2)
    }

    /** removePid: the list closes over p, and the references its links were are put. */
    method Unlink(p: ProcessControlBlock)
      requires InPlace(p)
      modifies `firstProcess, `alive, p`refCount, alive`prev, alive`next
      ensures alive == old(alive) && p.refCount == old(p.refCount) - (if old(p.next) == null then 1 else 2)
      ensures firstProcess == if old(p.prev) == null then old(p.next) else old(firstProcess)
      ensures forall x :: x in alive ==> x.prev == if x == old(p.next) then old(p.prev) else old(x.prev)
      ensures forall x :: x in alive ==> x.next == if x == old(p.prev) then old(p.next) else old(x.next)
    {
      if firstProcess == p {
        PutProcess(firstProcess);
        firstProcess := p.next;
        PutProcess(firstProcess.prev);
        firstProcess.prev := null;
      } else {
        PutProcess(p.prev.next);
        p.prev.next := p.next;
        if p.next != null {
          PutProcess(p.next.prev);
          p.next.prev := p.prev;
        }
      }
    }

    /** removePid: the references of the table, of the parent field and of the caller are put. */
    method LetGo(p: ProcessControlBlock)
      requires p in alive && p.refCount >= 2 && p.parent != p && (p.parent != null ==> p.parent in alive && p.parent.refCount > 0)
      modifies `alive, p`parent, alive`refCount
      ensures p.parent == null
      ensures forall x :: x in old(alive) ==> x.refCount == old(x.refCount) - (if x == p then 2 else if x == old(p.parent) then 1 else 0)
      ensures alive <= old(alive)
      ensures forall x :: x in old(alive) ==> (x in alive <==> !((x == p || x == old(p.parent)) && x.refCount == 0))
    {
      PutProcess(p);
      if p.parent != null {
        PutProcess(p.parent);
      }
      p.parent := null;
      PutProcess(p);
    }

    /**
     * removePid, for any process but the only one.  The list and the table lose it, and each
     * count stays what its pointers say; only when the process at the tail goes does its
     * neighbour keep a reference that no pointer accounts for.
     */
    method RemovePid(pid: int)
      requires Valid() && (pid in processes ==> |list| > 1)
      modifies this, alive
      ensures Valid() && alive <= old(alive)
      ensures pid !in old(processes) ==> list == old(list) && holds == old(holds) && alive == old(alive) && processes == old(processes)
      ensures pid in old(processes) ==> Removed(old(list), old(holds), list, holds, old(processes)[pid]) && processes == old(processes) - {pid}
      ensures lastUsedPID == old(lastUsedPID) && forall x :: x in old(list) ==> x.pid == old(x.pid)
    {
      hide Valid, ParentBag, Linked, Tabled, NoDup, Removed, IndexOf, RemoveAt, Pointers, Counted, Relinked, Recounted, InPlace;
      if pid !in processes {
        return;
      }
      ghost var i := FindListed(pid);
      RemovedIs(list, holds, processes[pid], i);
      Dismiss(pid, i);
    }

    /** removePid of the process at place i of the list. */
    method Dismiss(pid: int, ghost i: nat)
      requires Valid() && pid in processes && 1 < |list| && i < |list| && list[i] == processes[pid] && list[i].pid == pid
      requires list[i] in alive && InPlace(list[i]) && (list[i].prev == null <==> i == 0) && (list[i].next == null <==> i == |list| - 1)
      requires list[i].parent != list[i] && (list[i].parent != null ==> list[i].parent in alive && list[i].parent.refCount > 0)
      modifies this, alive
      ensures Valid() && alive <= old(alive) && list == RemoveAt(old(list), i) && processes == old(processes) - {pid}
      ensures holds == old(holds) + (if i == |old(list)| - 1 then multiset{list[|list| - 1]} else multiset{})
      ensures lastUsedPID == old(lastUsedPID) && forall x :: x in old(list) ==> x.pid == old(x.pid)
    {
      hide Valid, ParentBag, Linked, Tabled, NoDup, Removed, Pointers, Counted, Relinked, Recounted, InPlace;
      var p := processes[pid];
      ghost var tail := i == |list| - 1;
      TakeOff(p, p.parent, tail);
      processes := processes - {pid};
      list := RemoveAt(list, i);
      holds := holds + (if tail then multiset{list[|list| - 1]} else multiset{});
      RemovedValid(i);
    }

    /** removePid, apart from the table: the reference of the caller is taken and put. */
    method TakeOff(p: ProcessControlBlock, ghost q: ProcessControlBlock?, ghost tail: bool)
      requires q == p.parent && tail == (p.next == null)
      requires InPlace(p) && p.parent != p && (p.parent != null ==> p.parent in alive && p.parent.refCount > 0)
      modifies `firstProcess, `alive, alive
      ensures firstProcess == if old(p.prev) == null then old(p.next) else old(firstProcess)
      ensures forall x {:trigger Relinked(p, x)} :: x in old(alive) ==> Relinked(p, x)
      ensures forall x {:trigger Recounted(p, q, tail, x)} :: x in old(alive) ==> Recounted(p, q, tail, x)
      ensures alive <= old(alive)
      ensures forall x :: x in old(alive) ==> (x in alive <==> !((x == p || x == old(p.parent)) && x.refCount == 0))
    {
      ReferenceProcess(p);
      Unlink(p);
      LetGo(p);
    }

    /** What is known of a process found in the table. */
    lemma FindListed(pid: int) returns (i: nat)
      requires Valid() && pid in processes && |list| > 1
      ensures i < |list| && list[i] == processes[pid] && list[i] in alive && i == IndexOf(list, list[i]) && list[i].pid == pid
      ensures var p := list[i];
        && p.refCount >= (if i == |list| - 1 then 2 else 3) && InPlace(p) && (p == list[|list| - 1] <==> i == |list| - 1)
        && p.prev == (if i == 0 then null else list[i - 1]) && p.next == (if i == |list| - 1 then null else list[i + 1])
        && (p.parent != null ==> p.parent in alive && p.parent != p && p.parent.refCount > 0)
    {
      hide ParentBag;
      var p := processes[pid];
      i := IndexOf(list, p);
      assert Counted(p);
      if p.parent != null { assert Counted(p.parent); }
    }

    /** What removePid does to the fields of processes other than refCount. */
    twostate predicate Relinked(p: ProcessControlBlock, x: ProcessControlBlock)
      reads x
    {
      && x.pid == old(x.pid) && x.parent == (if x == p then null else old(x.parent))
      && (x != p ==> x.prev == if x == old(p.next) then old(p.prev) else old(x.prev))
      && (x != p ==> x.next == if x == old(p.prev) then old(p.next) else old(x.next))
    }

    /** What removePid does to refCount. */
    twostate predicate Recounted(p: ProcessControlBlock, q: ProcessControlBlock?, tail: bool, x: ProcessControlBlock)
      reads x
    {
      x.refCount == old(x.refCount) - (if x == p then (if tail then 2 else 3) else if x == q then 1 else 0)
    }

    twostate predicate Taken(p: ProcessControlBlock, q: ProcessControlBlock?, i: nat, tail: bool, prior: set<ProcessControlBlock>)
      reads this, prior
    {
      && prior == old(alive) && tail == (i == |old(list)| - 1)
      && i < |old(list)| && |old(list)| > 1 && old(list)[i] == p && q == old(p.parent)
      && list == RemoveAt(old(list), i) && processes == old(processes) - {old(p.pid)} && lastUsedPID == old(lastUsedPID)
      && firstProcess == (if i == 0 then old(p.next) else old(firstProcess))
      && holds == old(holds) + (if i == |old(list)| - 1 then multiset{list[|list| - 1]} else multiset{})
      && (forall x {:trigger Relinked(p, x)} :: x in prior ==> Relinked(p, x))
      && (forall x {:trigger Recounted(p, q, tail, x)} :: x in prior ==> Recounted(p, q, tail, x))
      && alive <= prior && (forall x :: x in prior ==> (x in alive <==> !((x == p || x == q) && x.refCount == 0)))
    }

    twostate lemma RemovedValid(i: nat)
      requires old(Valid()) && i < |old(list)| && Taken(old(list)[i], old(list[i].parent), i, i == |old(list)| - 1, old(alive))
      ensures Valid() && forall x :: x in old(list) ==> x.pid == old(x.pid)
    {
      hide ParentBag, Linked, Tabled, Counted, Valid, NoDup, Taken, RemoveAt;
      FrontFacts();
      TakenFields(i);
      LessCounts(i);
      TakenLinks(i);
      LinkedLess(i);
      TabledLess(i);
      WholeValid();
    }

    twostate lemma TakenFields(i: nat)
      requires i < |old(list)| && Taken(old(list)[i], old(list[i].parent), i, i == |old(list)| - 1, old(alive))
      requires forall x :: x in old(list) ==> x in old(alive)
      ensures |old(list)| > 1 && list == RemoveAt(old(list), i) && lastUsedPID == old(lastUsedPID)
      ensures processes == old(processes) - {old(list[i].pid)} && firstProcess == (if i == 0 then old(list[i].next) else old(firstProcess))
      ensures forall x :: x in old(list) ==> x.pid == old(x.pid)
    {
      hide NoDup, RemoveAt;
      forall x | x in old(list) ensures x.pid == old(x.pid) { assert Relinked(old(list)[i], x); }
    }

    twostate lemma LessCounts(i: nat)
      requires old(Valid()) && i < |old(list)| && Taken(old(list)[i], old(list[i].parent), i, i == |old(list)| - 1, old(alive))
      ensures forall x {:trigger Counted(x)} :: x in alive ==> Counted(x)
      ensures forall x :: x in list || x in holds ==> x in alive
      ensures forall x {:trigger x.parent} :: x in list && x.parent != null ==> x.parent in alive && x.parent != x
    {
      hide ParentBag, Linked, Tabled;
      FrontFacts();
      WithoutAt(old(list), i);
      TakenLinks(i);
      BagLess(i);
      forall x | x in alive ensures Counted(x) { CountedLess(i, x); }
      forall x | x in list || x in holds ensures x in alive { HeldOld(i, x); CountedLess(i, x); }
      forall x | x in list && x.parent != null ensures x.parent in alive && x.parent != x {
        BagHas(list, IndexOf(list, x));
        ParentOld(x);
        CountedLess(i, x.parent);
      }
    }

    twostate lemma HeldOld(i: nat, new x: ProcessControlBlock)
      requires old(Valid()) && i < |old(list)| && |old(list)| > 1 && list == RemoveAt(old(list), i)
      requires holds == old(holds) + (if i == |old(list)| - 1 then multiset{list[|list| - 1]} else multiset{})
      requires x in list || x in holds
      ensures x in old(alive)
    {
      hide ParentBag;
      WithoutAt(old(list), i);
    }

    twostate lemma ParentOld(x: ProcessControlBlock)
      requires old(Valid()) && x in old(list) && x.parent == old(x.parent) != null
      ensures x.parent in old(alive) && x.parent != x
    {}

    twostate lemma BagLess(i: nat)
      requires i < |old(list)| && NoDup(old(list)) && list == RemoveAt(old(list), i)
      requires forall x :: x in old(list) && x != old(list)[i] ==> x.parent == old(x.parent)
      ensures old(ParentBag(list)) == ParentBag(list) + multiset{old(list[i].parent)}
    {
      WithoutAt(old(list), i);
      assert old(BagSplit(list, i));
      OldBag(list);
    }

    /** The count of a process after removal is what its pointers say, be it zero. */
    twostate lemma CountedLess(i: nat, new x: ProcessControlBlock)
      requires old(Valid()) && i < |old(list)| && Taken(old(list)[i], old(list[i].parent), i, i == |old(list)| - 1, old(alive))
      requires old(ParentBag(list)) == ParentBag(list) + multiset{old(list[i].parent)}
      requires x in old(alive)
      ensures x.refCount == Pointers(x) && (x.refCount > 0 <==> x in alive)
    {
      hide ParentBag, Linked, Tabled;
      FrontFacts();
      WithoutAt(old(list), i);
      assert old(Counted(x));
      var p := old(list)[i];
      assert Recounted(p, old(list[i].parent), i == |old(list)| - 1, x);
    }

    twostate lemma TakenLinks(i: nat)
      requires i < |old(list)| && Taken(old(list)[i], old(list[i].parent), i, i == |old(list)| - 1, old(alive)) && NoDup(old(list))
      requires forall x :: x in old(list) ==> x in old(alive)
      ensures forall x :: x in old(list) && x != old(list)[i] ==> x.parent == old(x.parent)
      ensures forall x :: x in list ==>
        && x.pid == old(x.pid)
        && x.prev == (if x == old(list[i].next) then old(list[i].prev) else old(x.prev))
        && x.next == (if x == old(list[i].prev) then old(list[i].next) else old(x.next))
    {
      WithoutAt(old(list), i);
      forall x | x in old(list) ensures Relinked(old(list)[i], x) {}
    }

    twostate lemma LinkedLess(i: nat)
      requires old(Linked()) && i < |old(list)| && |old(list)| > 1 && list == RemoveAt(old(list), i)
      requires firstProcess == if i == 0 then old(list[i].next) else old(firstProcess)
      requires forall x :: x in list ==>
        && x in alive
        && x.prev == (if x == old(list[i].next) then old(list[i].prev) else old(x.prev))
        && x.next == (if x == old(list[i].prev) then old(list[i].next) else old(x.next))
      ensures Linked()
    {
      WithoutAt(old(list), i);
      assert old(list[i].next) == (if i == |old(list)| - 1 then null else old(list)[i + 1]);
      forall k | 0 <= k < |list| ensures list[k].prev == (if k == 0 then null else list[k - 1]) && list[k].next == (if k == |list| - 1 then null else list[k + 1]) {
        assert list[k] == old(list)[if k < i then k else k + 1];
        LinkLess(i, k);
      }
    }

    /** The links at place k of the shorter list. */
    twostate lemma LinkLess(i: nat, new k: nat)
      requires old(Linked()) && i < |old(list)| && |old(list)| > 1 && list == RemoveAt(old(list), i) && k < |list| && list[k] in old(list)
      requires list[k].prev == (if list[k] == old(list[i].next) then old(list[i].prev) else old(list[if k < i then k else k + 1].prev))
      requires list[k].next == (if list[k] == old(list[i].prev) then old(list[i].next) else old(list[if k < i then k else k + 1].next))
      ensures list[k].prev == (if k == 0 then null else list[k - 1])
      ensures list[k].next == (if k == |list| - 1 then null else list[k + 1])
    {
      var j := if k < i then k else k + 1;
      assert list[k] == old(list)[j];
      assert old(list[i].prev) == (if i == 0 then null else old(list)[i - 1]);
      assert old(list[i].next) == (if i == |old(list)| - 1 then null else old(list)[i + 1]);
      assert old(list[j].prev) == (if j == 0 then null else old(list)[j - 1]);
      assert old(list[j].next) == (if j == |old(list)| - 1 then null else old(list)[j + 1]);
    }

    twostate lemma TabledLess(i: nat)
      requires old(Tabled()) && NoDup(old(list)) && i < |old(list)| && list == RemoveAt(old(list), i)
      requires processes == old(processes) - {old(list[i].pid)} && lastUsedPID == old(lastUsedPID)
      requires forall x :: x in list ==> x in alive && x.pid == old(x.pid)
      ensures Tabled()
    {
      WithoutAt(old(list), i);
    }

    // -------------------------------------------------------------- runs

    /** The pids on the list, in order. */
    ghost function Pids(): (ps: seq<int>)
      reads `list, (set p | p in list)`pid
      ensures |ps| == |list| && forall i {:trigger ps[i]} :: 0 <= i < |list| ==> ps[i] == list[i].pid
    {
      PidsOf(list)
    }

    /** The table knows a pid exactly if it is on the list, once. */
    lemma PidKnown(pid: int)
      requires Valid()
      ensures NoDup(Pids()) && (pid in processes <==> pid in Pids())
      ensures pid in processes ==> processes[pid] in list && |list| > 0 && (processes[pid].next == null <==> pid == Pids()[|list| - 1])
    {
      hide ParentBag, Linked, Counted;
      Opened();
      forall i, j | 0 <= i < j < |list| ensures Pids()[i] != Pids()[j] {
        assert list[i] in list && list[j] in list;
      }
      if pid in processes {
        InList(pid);
        var i := IndexOf(list, processes[pid]);
        assert Pids()[i] == pid;
      }
      if pid in Pids() {
        var i :| 0 <= i < |list| && Pids()[i] == pid;
        assert list[i] in list;
      }
    }

    /**
     * Any run of forks, removals of processes that are not at the tail, and references taken
     * and dropped outside.  The list holds the processes created and not removed, newest
     * first; every count is exactly its pointers, the holds being those still outstanding.
     */
    method Run(ops: seq<ProcessOp>) returns (held: seq<ProcessControlBlock>)
      requires Valid()
      modifies this, alive
      ensures Valid() && holds == old(holds) + multiset(held) && fresh(alive - old(alive))
      ensures Table(Pids(), lastUsedPID) == TableAfter(old(Table(Pids(), lastUsedPID)), ops)
    {
      hide Valid, TableAfter, TableStep;
      held := [];
      ghost var start := Table(Pids(), lastUsedPID);
      AfterNone(start, ops);
      for n := 0 to |ops|
        invariant Valid() && holds == old(holds) + multiset(held) && fresh(alive - old(alive))
        invariant Table(Pids(), lastUsedPID) == TableAfter(start, ops[..n])
      {
        ghost var before := held;
        AfterMore(start, ops, n);
        held := Perform(ops[n], held);
        assert old(holds) + multiset(before) - multiset(before) == old(holds);
      }
      AfterNone(start, ops);
    }

    lemma SameHolds(h: multiset<ProcessControlBlock>, held: seq<ProcessControlBlock>)
      requires multiset(held) <= h
      ensures h - multiset(held) + multiset(held) == h
    {}

    lemma MoreHolds(h: multiset<ProcessControlBlock>, held: seq<ProcessControlBlock>, p: ProcessControlBlock)
      requires multiset(held) <= h
      ensures h + multiset{p} == h - multiset(held) + multiset(held + [p])
    {}

    lemma FewerHolds(h: multiset<ProcessControlBlock>, held: seq<ProcessControlBlock>, k: nat)
      requires multiset(held) <= h && k < |held|
      ensures held[k] in h && h - multiset{held[k]} == h - multiset(held) + multiset(held[..k] + held[k + 1..])
    {
      assert held == held[..k] + [held[k]] + held[k + 1..];
    }

    method Perform(op: ProcessOp, held: seq<ProcessControlBlock>) returns (held': seq<ProcessControlBlock>)
      requires Valid() && multiset(held) <= holds
      modifies this, alive
      ensures Valid() && holds == old(holds) - multiset(held) + multiset(held') && fresh(alive - old(alive))
      ensures Table(Pids(), lastUsedPID) == TableStep(old(Table(Pids(), lastUsedPID)), op)
    {
      hide Valid, Pids, Minus;
      held' := held;
      SameHolds(holds, held);
      match op
      case Fork(pid) => ForkFrom(pid);
      case Reap(pid) => ReapInner(pid);
      case Hold(pid) => held' := HoldOne(pid, held);
      case Drop(k) => held' := DropOne(k, held);
    }

    /** NewProcess by the process of this pid. */
    method ForkFrom(pid: int)
      requires Valid()
      modifies this, alive
      ensures Valid() && holds == old(holds) && fresh(alive - old(alive))
      ensures Table(Pids(), lastUsedPID) == TableStep(old(Table(Pids(), lastUsedPID)), Fork(pid))
    {
      hide Valid, NoDup;
      PidKnown(pid);
      if pid in processes {
        InList(pid);
        var child := NewProcess(processes[pid]);
        FrontPid(child, old(Pids()));
      }
    }

    method HoldOne(pid: int, held: seq<ProcessControlBlock>) returns (held': seq<ProcessControlBlock>)
      requires Valid() && multiset(held) <= holds
      modifies this, alive
      ensures Valid() && holds == old(holds) - multiset(held) + multiset(held') && alive == old(alive)
      ensures Pids() == old(Pids()) && lastUsedPID == old(lastUsedPID)
    {
      hide Valid;
      SameHolds(holds, held);
      held' := held;
      var p := GetProcess(pid);
      if p != null {
        MoreHolds(old(holds), held, p);
        held' := held + [p];
      }
    }

    method DropOne(k: nat, held: seq<ProcessControlBlock>) returns (held': seq<ProcessControlBlock>)
      requires Valid() && multiset(held) <= holds
      modifies this, alive
      ensures Valid() && holds == old(holds) - multiset(held) + multiset(held') && alive <= old(alive)
      ensures Pids() == old(Pids()) && lastUsedPID == old(lastUsedPID)
    {
      hide Valid;
      SameHolds(holds, held);
      held' := held;
      if k < |held| {
        FewerHolds(holds, held, k);
        DropHold(held[k]);
        held' := held[..k] + held[k + 1..];
      }
    }

    /** removePid of a process that is not at the tail. */
    method ReapInner(pid: int)
      requires Valid()
      modifies this, alive
      ensures Valid() && holds == old(holds) && alive <= old(alive)
      ensures Table(Pids(), lastUsedPID) == TableStep(old(Table(Pids(), lastUsedPID)), Reap(pid))
    {
      hide Valid, IndexOf, RemoveAt, NoDup, Minus;
      PidKnown(pid);
      if pid in processes {
        InList(pid);
        if processes[pid].next != null {
          ghost var ps, p := Pids(), processes[pid];
          RemovePid(pid);
          PidGone(p, ps);
        }
      }
    }

    twostate lemma FrontPid(new p: ProcessControlBlock, ps: seq<int>)
      requires list == [p] + old(list) && ps == old(Pids())
      requires forall x :: x in old(list) ==> x.pid == old(x.pid)
      ensures Pids() == [p.pid] + ps
    {
      assert forall k :: 0 <= k < |ps| ==> ps[k] == old(list[k].pid) && old(list)[k] in old(list);
    }

    twostate lemma PidGone(new p: ProcessControlBlock, ps: seq<int>)
      requires p in old(list) && |old(list)| > 1 && list == RemoveAt(old(list), IndexOf(old(list), p)) && ps == old(Pids()) && NoDup(ps)
      requires forall x :: x in old(list) ==> x.pid == old(x.pid)
      ensures Pids() == Minus(ps, p.pid)
    {
      var i := IndexOf(old(list), p);
      assert ps[i] == p.pid;
      assert forall k :: 0 <= k < |ps| ==> ps[k] == old(list[k].pid);
      assert Pids() == RemoveAt(ps, i);
      MinusIs(ps, i);
    }

    /** A process of the table is on the list, at the tail exactly if nothing follows it. */
    lemma InList(pid: int)
      requires Valid() && pid in processes
      ensures processes[pid] in list && processes[pid] in alive && processes[pid].pid == pid
      ensures processes[pid].next == null <==> processes[pid] == list[|list| - 1]
      ensures processes[pid].next != null ==> |list| > 1
    {
      var i := IndexOf(list, processes[pid]);
      assert list[i].next == if i == |list| - 1 then null else list[i + 1];
    }
  }

  /** The table, as far as pids tell: those on the list, newest first, and the last one given out. */
  datatype Table = Table(pids: seq<int>, last: int)

  function Minus(ps: seq<int>, pid: int): seq<int> {
    if ps == [] then [] else if ps[0] == pid then Minus(ps[1..], pid) else [ps[0]] + Minus(ps[1..], pid)
  }

  lemma {:induction false} MinusNone(ps: seq<int>, pid: int)
    requires pid !in ps
    ensures Minus(ps, pid) == ps
  {
    if ps != [] { MinusNone(ps[1..], pid); }
  }

  lemma {:induction false} MinusIs(ps: seq<int>, i: nat)
    requires i < |ps| && NoDup(ps)
    ensures Minus(ps, ps[i]) == RemoveAt(ps, i)
  {
    if i == 0 {
      MinusNone(ps[1..], ps[0]);
      assert RemoveAt(ps, 0) == ps[1..];
    } else {
      MinusIs(ps[1..], i - 1);
      assert RemoveAt(ps, i) == [ps[0]] + RemoveAt(ps[1..], i - 1);
    }
  }

  function TableStep(t: Table, op: ProcessOp): Table {
    match op
    case Fork(pid) => if pid in t.pids then Table([t.last + 1] + t.pids, t.last + 1) else t
    case Reap(pid) => if pid in t.pids && pid != t.pids[|t.pids| - 1] then Table(Minus(t.pids, pid), t.last) else t
    case Hold(_) => t
    case Drop(_) => t
  }

  function TableAfter(t: Table, ops: seq<ProcessOp>): Table {
    if ops == [] then t else TableStep(TableAfter(t, ops[..|ops| - 1]), ops[|ops| - 1])
  }

  lemma AfterNone(t: Table, ops: seq<ProcessOp>)
    ensures TableAfter(t, ops[..0]) == t && ops[..|ops|] == ops
  {}

  lemma AfterMore(t: Table, ops: seq<ProcessOp>, n: nat)
    requires n < |ops|
    ensures TableAfter(t, ops[..n + 1]) == TableStep(TableAfter(t, ops[..n]), ops[n])
  {
    assert ops[..n + 1][..n] == ops[..n];
  }

  datatype ProcessOp = Fork(pid: int) | Reap(pid: int) | Hold(pid: int) | Drop(k: nat)
}
