/** The key-value store of one process, as a single caller sees it. */
module KvStore {
  import opened Lists
  import opened KvConcurrent

  // ----- The hash: k & 1023 -----

  /** Bitwise and of two non-negative numbers. */
  function BitAnd(x: nat, y: nat): nat
    decreases x
  {
    if x == 0 then 0 else 2 * BitAnd(x / 2, y / 2) + (if x % 2 == 1 && y % 2 == 1 then 1 else 0)
  }

  lemma {:induction false} AndZero(x: nat)
    ensures BitAnd(x, 0) == 0
  {
    if x > 0 { AndZero(x / 2); }
  }

  lemma AndOddMask(x: nat, y: nat)
    ensures BitAnd(x, 2 * y + 1) == 2 * BitAnd(x / 2, y) + x % 2
  {
    assert (2 * y + 1) / 2 == y && (2 * y + 1) % 2 == 1;
  }

  /** Masking with ten one bits, peeled off one by one. */
  lemma LowTenBits(x: nat)
    ensures BitAnd(x, 1023) == x % 1024
  {
    hide BitAnd;
    var x5 := x / 32;
    LowFiveBits(x, 31);
    LowFiveBits(x5, 0);
    AndZero(x5 / 32);
  }

  lemma LowFiveBits(x: nat, y: nat)
    ensures BitAnd(x, 32 * y + 31) == 32 * BitAnd(x / 32, y) + x % 32
  {
    hide BitAnd;
    AndOddMask(x, 16 * y + 15);
    AndOddMask(x / 2, 8 * y + 7);
    AndOddMask(x / 4, 4 * y + 3);
    AndOddMask(x / 8, 2 * y + 1);
    AndOddMask(x / 16, y);
    assert x / 2 / 2 == x / 4 && x / 4 / 2 == x / 8 && x / 8 / 2 == x / 16 && x / 16 / 2 == x / 32;
  }

  /** The bucket of a 32-bit key, negative ones included, is its Euclidean remainder. */
  lemma HashIsMask(k: int)
    requires -0x8000_0000 <= k < 0x8000_0000
    ensures BitAnd(k % 0x1_0000_0000, 1023) == Hash(k)
  {
    LowTenBits(k % 0x1_0000_0000);
  }

  // ----- One bucket -----

  ghost predicate BucketOk(list: seq<Node>, h: nat) {
    && (forall i :: 0 <= i < |list| ==> Hash(list[i].key) == h)
    && forall i, j :: 0 <= i < j < |list| ==> list[i].key != list[j].key
  }

  function LookupIn(list: seq<Node>, k: int): Option<int> {
    if list == [] then None
    else if list[0].key == k then Some(list[0].value)
    else LookupIn(list[1..], k)
  }

  lemma {:induction false} LookupHit(list: seq<Node>, i: nat, k: int)
    requires i < |list| && list[i].key == k && forall j :: 0 <= j < i ==> list[j].key != k
    ensures LookupIn(list, k) == Some(list[i].value)
  {
    if i > 0 { LookupHit(list[1..], i - 1, k); }
  }

  lemma {:induction false} LookupMiss(list: seq<Node>, k: int)
    requires forall j :: 0 <= j < |list| ==> list[j].key != k
    ensures LookupIn(list, k) == None
  {
    if list != [] { LookupMiss(list[1..], k); }
  }

  lemma {:induction false} LookupUpdate(list: seq<Node>, i: nat, v: int, k: int)
    requires i < |list| && forall j :: 0 <= j < i ==> list[j].key != list[i].key
    ensures LookupIn(list[i := Node(list[i].key, v)], k) == if k == list[i].key then Some(v) else LookupIn(list, k)
  {
    var list' := list[i := Node(list[i].key, v)];
    if i > 0 {
      LookupUpdate(list[1..], i - 1, v, k);
      assert list'[1..] == list[1..][i - 1 := Node(list[i].key, v)];
    } else {
      assert list'[1..] == list[1..];
    }
  }

  /** The nodes of all buckets, first bucket first. */
  ghost function Flatten(lists: seq<seq<Node>>): seq<Node> {
    if lists == [] then [] else Flatten(lists[..|lists| - 1]) + lists[|lists| - 1]
  }

  class KvStore {
    const head: array<seq<Node>>

    ghost predicate Valid()
      reads this, head
    {
      head.Length == BUCKETS && forall h :: 0 <= h < BUCKETS ==> BucketOk(head[h], h)
    }

    /** What the store maps `k` to. */
    ghost function Lookup(k: int): Option<int>
      requires head.Length == BUCKETS
      reads this, head
    {
      LookupIn(head[Hash(k)], k)
    }

    /** init_task_kv_store */
    constructor ()
      ensures Valid() && fresh(head) && forall k :: Lookup(k) == None
    {
      head := new seq<Node>[BUCKETS];
      new;
      for i := 0 to BUCKETS
        invariant forall h :: 0 <= h < i ==> head[h] == []
      {
        head[i] := [];
      }
    }

    /** write_kv; `haveMemory` is whether kmalloc succeeds, should it be called. */
    method WriteKv(k: int, v: int, haveMemory: bool) returns (ret: int)
      requires Valid()
      modifies head
      ensures Valid()
      ensures ret == if haveMemory || old(Lookup(k)).Some? then 4 else -1
      ensures forall j :: Lookup(j) == if j == k && ret == 4 then Some(v) else old(Lookup(j))
    {
      var h := Hash(k);
      var list := head[h];
      var i := 0;
      while i < |list| && list[i].key != k
        invariant 0 <= i <= |list| && forall j :: 0 <= j < i ==> list[j].key != k
      {
        i := i + 1;
      }
      if i < |list| {
        LookupHit(list, i, k);
        head[h] := list[i := Node(list[i].key, v)];
        forall j ensures Lookup(j) == if j == k then Some(v) else old(Lookup(j)) {
          LookupUpdate(list, i, v, j);
        }
        ret := 4;
      } else {
        LookupMiss(list, k);
        if !haveMemory {
          return -1;
        }
        head[h] := [Node(k, v)] + list;
        assert head[h][1..] == list;
        ret := 4;
      }
    }

    /** read_kv */
    method ReadKv(k: int) returns (ret: int)
      requires Valid()
      ensures ret == match Lookup(k) case Some(v) => v case None => -1
    {
      ret := -1;
      var list := head[Hash(k)];
      var i := 0;
      while i < |list|
        invariant 0 <= i <= |list| && ret == -1 && forall j :: 0 <= j < i ==> list[j].key != k
      {
        if list[i].key == k {
          LookupHit(list, i, k);
          ret := list[i].value;
          return;
        }
        i := i + 1;
      }
      LookupMiss(list, k);
    }

    /**
     * cleanup_task_kv_store: for the main thread, frees every node of every bucket once, in
     * list order, and leaves the store empty; for any other thread nothing happens.
     */
    method Cleanup(tgid: int, pid: int) returns (freed: seq<Node>)
      requires Valid()
      modifies head
      ensures Valid()
      ensures tgid == pid ==> freed == Flatten(old(head[..])) && forall k :: Lookup(k) == None
      ensures tgid != pid ==> freed == [] && head[..] == old(head[..])
    {
      freed := [];
      if tgid != pid {
        return;
      }
      ghost var lists := head[..];
      for i := 0 to BUCKETS
        invariant forall h :: 0 <= h < i ==> head[h] == []
        invariant forall h :: i <= h < BUCKETS ==> head[h] == lists[h]
        invariant freed == Flatten(lists[..i])
      {
        ghost var before := freed;
        while head[i] != []
          invariant before + lists[i] == freed + head[i]
          invariant forall h :: 0 <= h < i ==> head[h] == []
          invariant forall h :: i < h < BUCKETS ==> head[h] == lists[h]
          decreases |head[i]|
        {
          freed := freed + [head[i][0]];
          head[i] := head[i][1..];
        }
        assert lists[..i + 1][..i] == lists[..i];
      }
      assert lists[..BUCKETS] == lists;
    }
  }
}
