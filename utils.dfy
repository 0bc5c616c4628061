/**
 * The two helpers of the crawler's utility module: the nested-path lookup
 * `deep_get` and the fast-write counter that tallies matched documents.
 */
module Utils {
  import opened Wrappers
  import opened JsonData
  import Strings

  /** A path into nested dicts: a dotted string or a list of keys. */
  datatype Path = Dotted(text: string) | Keys(keys: seq<string>)

  /** Python's `not path`. */
  predicate IsEmpty(path: Path)
  {
    match path
    case Dotted(s) => s == ""
    case Keys(ks) => ks == []
  }

  /** The keys a path walks: a dotted string is split on ".". */
  function Parts(path: Path): (parts: seq<string>)
    ensures !IsEmpty(path) ==> |parts| >= 1
  {
    match path
    case Dotted(s) => Strings.Split(s, '.')
    case Keys(ks) => ks
  }

  /**
   * `deep_get(d, path, default)`. A falsy d or an empty path gives d itself;
   * a truthy d that is not a dict has no `get` and raises; a missing or null
   * key gives the default; otherwise the lookup continues one level down.
   */
  function DeepGet(d: Json, path: Path, default: Json): (r: Result<Json, Exc>)
    ensures !Truthy(d) || IsEmpty(path) ==> r == Ok(d)
    ensures Truthy(d) && !IsEmpty(path) && !d.JObj? ==> r == Err(AttributeError)
    ensures Truthy(d) && d.JObj? && !IsEmpty(path) && Get(d.fields, Parts(path)[0]) == JNull
            ==> r == Ok(default)
    decreases |Parts(path)|
  {
    if !Truthy(d) || IsEmpty(path) then Ok(d)
    else if !d.JObj? then Err(AttributeError)
    else
      var parts := Parts(path);
      var v := Get(d.fields, parts[0]);
      if v != JNull then DeepGet(v, Keys(parts[1..]), default) else Ok(default)
  }

  /** A dotted path looks up the same thing as the list of its "."-separated parts. */
  lemma DeepGetDotted(d: Json, s: string, default: Json)
    requires s != ""
    ensures DeepGet(d, Dotted(s), default) == DeepGet(d, Keys(Strings.Split(s, '.')), default)
  {
  }

  /** A single key without a dot means itself: `deep_get(d, "a") == deep_get(d, ["a"])`. */
  lemma DeepGetOneKey(d: Json, a: string, default: Json)
    requires '.' !in a && a != ""
    ensures DeepGet(d, Dotted(a), default) == DeepGet(d, Keys([a]), default)
  {
    Strings.SplitNoSep(a, '.');
  }

  /**
   * `deep_get(d, "a.b")` is `deep_get(d, ["a", "b"])`: the two-level dotted
   * paths the crawler uses (such as "bibjson.link") mean their key lists.
   */
  lemma DeepGetTwoKeys(d: Json, a: string, b: string, default: Json)
    requires '.' !in a && '.' !in b
    ensures DeepGet(d, Dotted(a + "." + b), default) == DeepGet(d, Keys([a, b]), default)
  {
    Strings.SplitNoSep(b, '.');
    Strings.SplitCons(a, '.', b);
    DeepGetDotted(d, a + "." + b, default);
  }

  /** Plain nested lookup: each level a dict holding the next key with a non-null value. */
  function Lookup(d: Json, keys: seq<string>): (r: Option<Json>)
    ensures keys == [] ==> r == Some(d)
  {
    if keys == [] then Some(d)
    else if d.JObj? && Get(d.fields, keys[0]) != JNull then Lookup(d.fields[keys[0]], keys[1..])
    else None
  }

  /** Every level before the last key is a truthy dict and every key leads to a non-null value. */
  predicate TruthyChain(d: Json, keys: seq<string>)
  {
    keys == [] ||
    (d.JObj? && Truthy(d) && Get(d.fields, keys[0]) != JNull &&
     TruthyChain(d.fields[keys[0]], keys[1..]))
  }

  /** Along a chain of truthy dicts, deep_get finds the value at the end of the path. */
  lemma {:induction false} DeepGetChain(d: Json, keys: seq<string>, default: Json)
    requires TruthyChain(d, keys)
    ensures Lookup(d, keys).Some?
    ensures DeepGet(d, Keys(keys), default) == Ok(Lookup(d, keys).value)
  {
    if keys != [] {
      var v := d.fields[keys[0]];
      DeepGetChain(v, keys[1..], default);
      if !Truthy(v) {
        assert keys[1..] == [];
      }
    }
  }

  /**
   * When the walk reaches a falsy value that is not None before the path
   * ends (an empty dict, say), deep_get stops and returns that value, not
   * the default.
   */
  lemma {:induction false} DeepGetStopsAtFalsy(d: Json, keys: seq<string>, i: nat, x: Json, default: Json)
    requires i < |keys|
    requires TruthyChain(d, keys[..i])
    requires Lookup(d, keys[..i]) == Some(x) && !Truthy(x)
    ensures DeepGet(d, Keys(keys), default) == Ok(x)
  {
    if i > 0 {
      var v := d.fields[keys[0]];
      assert keys[..i][1..] == keys[1..][..i - 1];
      DeepGetStopsAtFalsy(v, keys[1..], i - 1, x, default);
    }
  }

  /**
   * `FastWriteCounter`: a counter written without a lock. `counter` is the
   * next number the underlying `itertools.count(init, step)` yields; a read
   * consumes one number too and compensates through `numberOfRead`.
   */
  class FastWriteCounter {
    var numberOfRead: int
    const step: int
    var counter: int
    ghost const init: int
    ghost var increments: nat
    ghost var readCount: nat

    /** The position of the underlying count accounts for every increment and every read. */
    ghost predicate Valid()
      reads this
    {
      counter == init + step * (increments + readCount) && numberOfRead == step * readCount
    }

    /** The value a read reports: the start plus one step per increment. */
    ghost function Count(): int
      reads this
    {
      init + step * increments
    }

    constructor (init: int, step: int)
      ensures Valid() && this.init == init && this.step == step
      ensures increments == 0 && readCount == 0 && Count() == init
      ensures counter == init && numberOfRead == 0
    {
      this.numberOfRead := 0;
      this.step := step;
      this.counter := init;
      this.init := init;
      this.increments := 0;
      this.readCount := 0;
    }

    /** `increment`: advance the underlying count by one step. */
    method Increment()
      requires Valid()
      modifies this
      ensures Valid()
      ensures counter == old(counter) + step && numberOfRead == old(numberOfRead)
      ensures increments == old(increments) + 1 && readCount == old(readCount)
      ensures Count() == old(Count()) + step
    {
      counter := counter + step;
      increments := increments + 1;
      assert step * (increments + readCount) == step * (old(increments) + readCount) + step;
    }

    /** `value`: take the next number and subtract the steps earlier reads consumed. */
    method Value() returns (v: int)
      requires Valid()
      modifies this
      ensures Valid()
      ensures v == old(Count()) && Count() == old(Count())
      ensures counter == old(counter) + step && numberOfRead == old(numberOfRead) + step
      ensures increments == old(increments) && readCount == old(readCount) + 1
    {
      v := counter - numberOfRead;
      counter := counter + step;
      numberOfRead := numberOfRead + step;
      readCount := readCount + 1;
      assert step * (increments + readCount) == step * (increments + old(readCount)) + step;
      assert step * readCount == step * old(readCount) + step;
    }
  }

  /** Two reads with no increment between them report the same number. */
  method ReadTwice(c: FastWriteCounter) returns (first: int, second: int)
    requires c.Valid()
    modifies c
    ensures c.Valid() && first == second == old(c.Count())
    ensures c.increments == old(c.increments)
  {
    first := c.Value();
    second := c.Value();
  }

  /** The number of increments in a run of counter operations (true: increment, false: read). */
  function Increments(ops: seq<bool>): nat
  {
    if ops == [] then 0 else Increments(ops[..|ops| - 1]) + (if ops[|ops| - 1] then 1 else 0)
  }

  /**
   * A fresh counter driven through `ops`, increments and reads in any
   * interleaving, then read once more. Each read reports init plus one step
   * per increment before it, however many reads came before; the last one
   * reports init + step * (all increments).
   */
  method CountIncrements(init: int, step: int, ops: seq<bool>) returns (v: int, seen: seq<Option<int>>)
    ensures v == init + step * Increments(ops)
    ensures |seen| == |ops|
    ensures forall k :: 0 <= k < |ops| ==> (seen[k].Some? <==> !ops[k])
    ensures forall k :: 0 <= k < |ops| && !ops[k] ==> seen[k] == Some(init + step * Increments(ops[..k]))
  {
    var c := new FastWriteCounter(init, step);
    seen := [];
    for k := 0 to |ops|
      invariant c.Valid() && c.init == init && c.step == step
      invariant c.increments == Increments(ops[..k])
      invariant |seen| == k
      invariant forall j :: 0 <= j < k ==> (seen[j].Some? <==> !ops[j])
      invariant forall j :: 0 <= j < k && !ops[j] ==> seen[j] == Some(init + step * Increments(ops[..j]))
    {
      assert ops[..k + 1][..k] == ops[..k];
      if ops[k] {
        c.Increment();
        seen := seen + [None];
      } else {
        var r := c.Value();
        seen := seen + [Some(r)];
      }
    }
    assert ops[..|ops|] == ops;
    v := c.Value();
  }
}
