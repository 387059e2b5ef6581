/** The SysV symbol hash table of a shared object, and the loader's lookup in it. */
module NameHash {
  type Name = seq<bv8>

  // ---------- the hash function ----------

  function ShiftIn(h: bv32, c: bv8): bv32 { (h << 4) + (c as bv32) }

  /** Fold the top four bits back in and clear them. */
  function HashStep(h: bv32, c: bv8): bv32 { Fold(ShiftIn(h, c)) }

  function Fold(h1: bv32): bv32 {
    var g := h1 & 0xF000_0000;
    (if g != 0 then h1 ^ (g >> 24) else h1) & !g
  }

  function Hash(name: Name): bv32 {
    if name == [] then 0 else HashStep(Hash(name[..|name| - 1]), name[|name| - 1])
  }

  lemma StepBound(h: bv32, c: bv8)
    ensures HashStep(h, c) < 0x1000_0000
  {
  }

  /** The top four bits of a hash are always clear. */
  lemma HashBound(name: Name)
    ensures Hash(name) < 0x1000_0000
  {
    if name != [] { StepBound(Hash(name[..|name| - 1]), name[|name| - 1]); }
  }

  method ElfHash(name: Name) returns (h: bv32)
    ensures h == Hash(name) && h < 0x1000_0000
  {
    hide HashStep;
    h := 0;
    var i := 0;
    while i < |name|
      invariant 0 <= i <= |name| && h == Hash(name[..i])
    {
      assert name[..i + 1][..i] == name[..i];
      h := HashStep(h, name[i]);
      i := i + 1;
    }
    assert name[..i] == name;
    HashBound(name);
  }
}

module SymbolHash {
  import opened NameHash

  // ---------- what the table should contain ----------

  function BucketOf(name: Name, nbucket: nat): (b: nat)
    requires nbucket > 0
    ensures b < nbucket
  {
    (Hash(name) as nat) % nbucket
  }

  /** The last of symbols `1..k` that falls in bucket `b`, 0 for none. Symbol `i`
      is `names[i - 1]`. */
  function LastIn(names: seq<Name>, nbucket: nat, b: nat, k: nat): (i: nat)
    requires nbucket > 0 && k <= |names|
    ensures i <= k && (i > 0 ==> BucketOf(names[i - 1], nbucket) == b)
    ensures forall j :: i <= j < k ==> BucketOf(names[j], nbucket) != b
  {
    if k == 0 then 0 else if BucketOf(names[k - 1], nbucket) == b then k else LastIn(names, nbucket, b, k - 1)
  }

  /** The last of symbols `1..k` called `name`, 0 for none: linear search. */
  function LastNamed(names: seq<Name>, name: Name, k: nat): (i: nat)
    requires k <= |names|
    ensures i <= k && (i > 0 ==> names[i - 1] == name)
    ensures forall j :: i <= j < k ==> names[j] != name
  {
    if k == 0 then 0 else if names[k - 1] == name then k else LastNamed(names, name, k - 1)
  }

  /** Bucket heads and chains for the first `k` symbols. */
  ghost predicate Threaded(names: seq<Name>, k: nat, buckets: seq<nat>, chains: seq<nat>) {
    && k <= |names| < |chains| && |buckets| > 0
    && (forall b :: 0 <= b < |buckets| ==> buckets[b] == LastIn(names, |buckets|, b, k))
    && (forall i :: 1 <= i <= k ==> chains[i] == LastIn(names, |buckets|, BucketOf(names[i - 1], |buckets|), i - 1))
    && (forall i :: 0 <= i < |chains| && !(1 <= i <= k) ==> chains[i] == 0)
  }

  lemma ThreadNext(names: seq<Name>, k: nat, buckets: seq<nat>, chains: seq<nat>)
    requires Threaded(names, k, buckets, chains) && k < |names|
    ensures var b := BucketOf(names[k], |buckets|);
            Threaded(names, k + 1, buckets[b := k + 1], chains[k + 1 := buckets[b]])
  {
    hide BucketOf;
  }

  /** Exports first, then object symbols; `nsyms` counts symbol 0 and any undefined
      symbols as well, which stay out of the chains. */
  method BuildTable(names: seq<Name>, nsyms: nat, nbucket: nat) returns (buckets: seq<nat>, chains: seq<nat>)
    requires nbucket > 0 && nsyms > |names|
    ensures |buckets| == nbucket && |chains| == nsyms && Threaded(names, |names|, buckets, chains)
  {
    buckets, chains := seq(nbucket, _ => 0), seq(nsyms, _ => 0);
    var i := 0;
    while i < |names|
      invariant 0 <= i <= |names| && |buckets| == nbucket && |chains| == nsyms
      invariant Threaded(names, i, buckets, chains)
    {
      ThreadNext(names, i, buckets, chains);
      var h := ElfHash(names[i]);
      var b := (h as nat) % nbucket;
      chains := chains[i + 1 := buckets[b]];
      buckets := buckets[b := i + 1];
      i := i + 1;
    }
  }

  // ---------- lookup ----------

  /** Symbols of another bucket cannot have the name. */
  lemma {:induction false} BucketSuffices(names: seq<Name>, nbucket: nat, name: Name, k: nat)
    requires nbucket > 0 && k <= |names|
    ensures LastNamed(names, name, k) == LastNamed(names, name, LastIn(names, nbucket, BucketOf(name, nbucket), k))
  {
    if k > 0 && BucketOf(names[k - 1], nbucket) != BucketOf(name, nbucket) {
      BucketSuffices(names, nbucket, name, k - 1);
    }
  }

  /** The loader's walk: hash, then the chain until the name matches or it ends. */
  method Lookup(names: seq<Name>, buckets: seq<nat>, chains: seq<nat>, name: Name) returns (y: nat)
    requires Threaded(names, |names|, buckets, chains)
    ensures y == LastNamed(names, name, |names|)
  {
    hide LastNamed, Hash;
    var h := ElfHash(name);
    ghost var b := BucketOf(name, |buckets|);
    y := buckets[(h as nat) % |buckets|];
    BucketSuffices(names, |buckets|, name, |names|);
    while y != 0 && names[y - 1] != name
      invariant y <= |names| && (y > 0 ==> BucketOf(names[y - 1], |buckets|) == b)
      invariant LastNamed(names, name, y) == LastNamed(names, name, |names|)
      decreases y
    {
      BucketSuffices(names, |buckets|, name, y - 1);
      assert chains[y] == LastIn(names, |buckets|, b, y - 1);
      y := chains[y];
    }
  }

  /** Every chain strictly decreases to 0. */
  lemma ChainsDescend(names: seq<Name>, buckets: seq<nat>, chains: seq<nat>, i: nat)
    requires Threaded(names, |names|, buckets, chains) && 1 <= i <= |names|
    ensures chains[i] < i
  {
  }

  /** A name is found exactly when it is defined, and then at its last definition. */
  lemma FoundExactly(names: seq<Name>, name: Name)
    ensures LastNamed(names, name, |names|) > 0 <==> name in names
    ensures forall i :: 0 <= i < |names| && names[i] == name ==> i < LastNamed(names, name, |names|)
  {
    var y := LastNamed(names, name, |names|);
    forall i | 0 <= i < |names| && names[i] == name
      ensures i < y
    {
    }
  }
}
