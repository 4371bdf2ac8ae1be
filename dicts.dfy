/**
 * Python dicts with their insertion order: a sequence of (key, value) pairs.
 * `d[k] = v` overwrites in place when `k` is present and appends otherwise.
 */
module Dicts {
  import opened Values

  type Dict<V> = seq<(string, V)>

  function Keys<V>(d: Dict<V>): seq<string>
  {
    seq(|d|, i requires 0 <= i < |d| => d[i].0)
  }

  /** Every key occurs once, as in any Python dict. */
  predicate NoDup<V>(d: Dict<V>)
  {
    forall i, j :: 0 <= i < j < |d| ==> d[i].0 != d[j].0
  }

  /** The position of key `k`: the first entry that carries it. */
  function IndexOf<V>(d: Dict<V>, k: string): (r: Option<nat>)
    ensures r.None? <==> k !in Keys(d)
    ensures r.Some? ==> r.value < |d| && d[r.value].0 == k
    ensures r.Some? ==> forall j :: 0 <= j < r.value ==> d[j].0 != k
  {
    if d == [] then None
    else if d[0].0 == k then
      assert Keys(d)[0] == k;
      Some(0)
    else
      match IndexOf(d[1..], k)
      case None =>
        assert Keys(d) == [d[0].0] + Keys(d[1..]);
        None
      case Some(i) =>
        assert Keys(d)[i + 1] == k;
        Some(i + 1)
  }

  /** Two dicts with the same key sequence find every key at the same place. */
  lemma IndexOfSameKeys<V, W>(d: Dict<V>, e: Dict<W>, k: string)
    requires Keys(d) == Keys(e)
    ensures IndexOf(d, k) == IndexOf(e, k)
  {
    var a, b := IndexOf(d, k), IndexOf(e, k);
    assert |d| == |Keys(d)| == |e|;
    if a.Some? && b.Some? {
      assert e[a.value].0 == Keys(e)[a.value] == Keys(d)[a.value] == k;
      assert d[b.value].0 == Keys(d)[b.value] == Keys(e)[b.value] == k;
    }
  }

  /** Appending an entry leaves every earlier position alone. */
  lemma {:induction false} IndexOfAppend<V>(d: Dict<V>, e: (string, V), k: string)
    ensures IndexOf(d + [e], k) ==
      match IndexOf(d, k)
      case Some(i) => Some(i)
      case None => if e.0 == k then Some(|d|) else None
  {
    if d != [] {
      assert (d + [e])[1..] == d[1..] + [e];
      IndexOfAppend(d[1..], e, k);
    }
  }

  /** In a dict without duplicate keys, the entry at `i` is the one found for its key. */
  lemma NoDupGet<V>(d: Dict<V>, i: nat)
    requires NoDup(d) && i < |d|
    ensures Get(d, d[i].0) == Some(d[i].1)
  {
    assert Keys(d)[i] == d[i].0;
  }

  /** `d.get(k)`. */
  function Get<V>(d: Dict<V>, k: string): (r: Option<V>)
    ensures r.None? <==> k !in Keys(d)
  {
    match IndexOf(d, k)
    case None => None
    case Some(i) => Some(d[i].1)
  }

  /** `d[k] = v`: overwrite in place, or append a new last entry. */
  function Set<V>(d: Dict<V>, k: string, v: V): (r: Dict<V>)
    ensures Keys(r) == if k in Keys(d) then Keys(d) else Keys(d) + [k]
    ensures Get(r, k) == Some(v)
    ensures NoDup(d) ==> NoDup(r)
  {
    match IndexOf(d, k)
    case Some(i) =>
      var r := d[i := (k, v)];
      assert Keys(r) == Keys(d);
      forall k' ensures IndexOf(r, k') == IndexOf(d, k') { IndexOfSameKeys(r, d, k'); }
      r
    case None =>
      var r := d + [(k, v)];
      assert Keys(r) == Keys(d) + [k];
      forall k' ensures IndexOf(r, k') == match IndexOf(d, k') case Some(i) => Some(i) case None => if k == k' then Some(|d|) else None {
        IndexOfAppend(d, (k, v), k');
      }
      assert forall i :: 0 <= i < |d| ==> r[i] == d[i];
      r
  }

  /** After `d[k] = v`, every other key reads as before. */
  lemma GetSet<V>(d: Dict<V>, k: string, v: V, k': string)
    ensures Get(Set(d, k, v), k') == if k' == k then Some(v) else Get(d, k')
  {
    match IndexOf(d, k)
    case Some(i) =>
      IndexOfSameKeys(Set(d, k, v), d, k');
    case None =>
      IndexOfAppend(d, (k, v), k');
  }

  lemma GetCons<V>(e: (string, V), d: Dict<V>, k: string)
    ensures Get([e] + d, k) == if e.0 == k then Some(e.1) else Get(d, k)
  {
    assert ([e] + d)[1..] == d;
  }

  /** `d.pop(k, None)` with the result discarded: every entry keyed `k` goes, the rest keep their order. */
  function Remove<V>(d: Dict<V>, k: string): (r: Dict<V>)
    ensures k !in Keys(r)
    ensures forall k' :: k' != k ==> Get(r, k') == Get(d, k')
    ensures NoDup(d) ==> NoDup(r)
  {
    if d == [] then []
    else
      var rest := Remove(d[1..], k);
      assert d == [d[0]] + d[1..];
      forall k' ensures Get(d, k') == if d[0].0 == k' then Some(d[0].1) else Get(d[1..], k') {
        GetCons(d[0], d[1..], k');
      }
      if d[0].0 == k then
        rest
      else
        var r := [d[0]] + rest;
        forall k' ensures Get(r, k') == if d[0].0 == k' then Some(d[0].1) else Get(rest, k') {
          GetCons(d[0], rest, k');
        }
        assert Keys(r) == [d[0].0] + Keys(rest);
        assert NoDup(d) ==> NoDup(r) by {
          if NoDup(d) {
            assert Keys(d) == [d[0].0] + Keys(d[1..]);
            assert d[0].0 !in Keys(d[1..]);
            assert Get(rest, d[0].0) == None;
            assert NoDup(d[1..]);
            assert d[0].0 !in Keys(rest);
            forall j | 0 <= j < |rest| ensures rest[j].0 != d[0].0 {
              assert Keys(rest)[j] == rest[j].0;
            }
            assert forall j :: 1 <= j < |r| ==> r[j] == rest[j - 1];
          }
        }
        r
  }
  /** `keys` with every occurrence of `k` dropped, the rest in order. */
  function Without(keys: seq<string>, k: string): (r: seq<string>)
    ensures k !in r
    ensures forall k' :: k' in r <==> k' in keys && k' != k
  {
    if keys == [] then []
    else (if keys[0] == k then [] else [keys[0]]) + Without(keys[1..], k)
  }

  /** Removing `k` keeps the other keys in the order they had. */
  lemma {:induction false} RemoveKeys<V>(d: Dict<V>, k: string)
    ensures Keys(Remove(d, k)) == Without(Keys(d), k)
  {
    if d != [] {
      RemoveKeys(d[1..], k);
      assert Keys(d) == [d[0].0] + Keys(d[1..]);
      if d[0].0 != k {
        assert Keys(Remove(d, k)) == [d[0].0] + Keys(Remove(d[1..], k));
      }
    }
  }


  /** The last value written to `k` by a sequence of writes, if any. */
  function LastWrite<V>(ws: Dict<V>, k: string): (r: Option<V>)
    ensures r.None? <==> k !in Keys(ws)
  {
    if ws == [] then None
    else if ws[|ws| - 1].0 == k then
      assert Keys(ws)[|ws| - 1] == k;
      Some(ws[|ws| - 1].1)
    else
      assert Keys(ws) == Keys(ws[..|ws| - 1]) + [ws[|ws| - 1].0];
      LastWrite(ws[..|ws| - 1], k)
  }

  /** Three writes in a row. */
  lemma ApplyAllThree<V>(d: Dict<V>, a: (string, V), b: (string, V), c: (string, V))
    ensures ApplyAll(d, [a, b, c]) == Set(Set(Set(d, a.0, a.1), b.0, b.1), c.0, c.1)
  {
    assert [] + [a] == [a] && [a] + [b] == [a, b] && [a, b] + [c] == [a, b, c];
    ApplyAllSnocEntry(d, [], a);
    ApplyAllSnocEntry(d, [a], b);
    ApplyAllSnocEntry(d, [a, b], c);
  }

  /** The last of three writes to `k`, from the third back to the first. */
  lemma LastWriteOfThree<V>(a: (string, V), b: (string, V), c: (string, V), k: string)
    ensures LastWrite([a, b, c], k) ==
      if k == c.0 then Some(c.1) else if k == b.0 then Some(b.1) else if k == a.0 then Some(a.1) else None
  {
    var abc := [a, b, c];
    assert abc[..2] == [a, b] && [a, b][..1] == [a] && [a][..0] == [];
    assert LastWrite([a], k) == if k == a.0 then Some(a.1) else None;
    assert LastWrite([a, b], k) == if k == b.0 then Some(b.1) else LastWrite([a], k);
    assert LastWrite(abc, k) == if k == c.0 then Some(c.1) else LastWrite([a, b], k);
  }

  /** Performs `d[k] = v` for every `(k, v)` of `ws`, in order. */
  function ApplyAll<V>(d: Dict<V>, ws: Dict<V>): Dict<V>
  {
    if ws == [] then d
    else
      var w := ws[|ws| - 1];
      Set(ApplyAll(d, ws[..|ws| - 1]), w.0, w.1)
  }

  /** One more write after a batch. */
  lemma ApplyAllSnocEntry<V>(d: Dict<V>, ws: Dict<V>, w: (string, V))
    ensures ApplyAll(d, ws + [w]) == Set(ApplyAll(d, ws), w.0, w.1)
  {
    assert (ws + [w])[..|ws|] == ws;
  }

  /** `d[k] = v` for each write in turn, on a copy of `d`. */
  method StoreAll<V>(d: Dict<V>, ws: Dict<V>) returns (r: Dict<V>)
    ensures r == ApplyAll(d, ws)
  {
    r := d;
    var i := 0;
    while i < |ws|
      invariant 0 <= i <= |ws|
      invariant r == ApplyAll(d, ws[..i])
    {
      ApplyAllStep(d, ws, i, r);
      r := Set(r, ws[i].0, ws[i].1);
      i := i + 1;
    }
    assert ws[..i] == ws;
  }

  /** The writes up to `i`, then write `i`. */
  lemma ApplyAllStep<V>(d: Dict<V>, ws: Dict<V>, i: nat, r: Dict<V>)
    requires i < |ws| && r == ApplyAll(d, ws[..i])
    ensures Set(r, ws[i].0, ws[i].1) == ApplyAll(d, ws[..i + 1])
  {
    var p := ws[..i + 1];
    assert p[..|p| - 1] == ws[..i] && p[|p| - 1] == ws[i];
  }

  /** Writing a key the dict lacks appends it. */
  lemma SetNew<V>(d: Dict<V>, k: string, v: V)
    requires k !in Keys(d)
    ensures Set(d, k, v) == d + [(k, v)]
  {
  }

  /** The last write to a key wins; a key nobody writes keeps its old value. */
  lemma {:induction false} ApplyAllGet<V>(d: Dict<V>, ws: Dict<V>, k: string)
    ensures Get(ApplyAll(d, ws), k) == if LastWrite(ws, k).Some? then LastWrite(ws, k) else Get(d, k)
  {
    if ws != [] {
      var w := ws[|ws| - 1];
      ApplyAllGet(d, ws[..|ws| - 1], k);
      GetSet(ApplyAll(d, ws[..|ws| - 1]), w.0, w.1, k);
    }
  }

  /** Writing never introduces a duplicate key. */
  lemma {:induction false} ApplyAllNoDup<V>(d: Dict<V>, ws: Dict<V>)
    requires NoDup(d)
    ensures NoDup(ApplyAll(d, ws))
  {
    if ws != [] {
      ApplyAllNoDup(d, ws[..|ws| - 1]);
    }
  }

  /** The old keys stay first, in their old order. */
  lemma {:induction false} ApplyAllKeepsOrder<V>(d: Dict<V>, ws: Dict<V>)
    ensures |Keys(d)| <= |Keys(ApplyAll(d, ws))|
    ensures Keys(ApplyAll(d, ws))[..|Keys(d)|] == Keys(d)
  {
    if ws != [] {
      var pre, w := ws[..|ws| - 1], ws[|ws| - 1];
      ApplyAllKeepsOrder(d, pre);
      var a := ApplyAll(d, pre);
      assert ApplyAll(d, ws) == Set(a, w.0, w.1);
      var n := |Keys(d)|;
      if w.0 !in Keys(a) {
        assert (Keys(a) + [w.0])[..n] == Keys(a)[..n];
      }
    }
  }

  /** Copying a dict key by key into an empty one rebuilds it exactly. */
  lemma {:induction false} ApplyAllCopies<V>(d: Dict<V>)
    requires NoDup(d)
    ensures ApplyAll([], d) == d
  {
    if d != [] {
      var pre := d[..|d| - 1];
      assert NoDup(pre);
      ApplyAllCopies(pre);
      var last := d[|d| - 1];
      assert pre + [last] == d;
      assert last.0 !in Keys(pre) by {
        assert forall j :: 0 <= j < |pre| ==> Keys(pre)[j] == d[j].0 != last.0;
      }
      ApplyAllSnocEntry([], pre, last);
      SetNew(pre, last.0, last.1);
    }
  }

  /** Writes in two batches: a write in the second batch hides the first. */
  lemma {:induction false} LastWriteAppend<V>(a: Dict<V>, b: Dict<V>, k: string)
    ensures LastWrite(a + b, k) == if LastWrite(b, k).Some? then LastWrite(b, k) else LastWrite(a, k)
  {
    if b == [] {
      assert a + b == a;
    } else {
      assert (a + b)[..|a + b| - 1] == a + b[..|b| - 1];
      LastWriteAppend(a, b[..|b| - 1], k);
    }
  }

  /** Applying two batches of writes is applying their concatenation. */
  lemma {:induction false} ApplyAllAppend<V>(d: Dict<V>, a: Dict<V>, b: Dict<V>)
    ensures ApplyAll(d, a + b) == ApplyAll(ApplyAll(d, a), b)
  {
    if b == [] {
      assert a + b == a;
    } else {
      assert (a + b)[..|a + b| - 1] == a + b[..|b| - 1];
      ApplyAllAppend(d, a, b[..|b| - 1]);
    }
  }

  /** In a dict without duplicate keys the last and the first entry for a key are the same one. */
  lemma {:induction false} LastWriteIsGet<V>(d: Dict<V>, k: string)
    requires NoDup(d)
    ensures LastWrite(d, k) == Get(d, k)
  {
    if d != [] {
      var pre, last := d[..|d| - 1], d[|d| - 1];
      assert NoDup(pre);
      LastWriteIsGet(pre, k);
      assert pre + [last] == d;
      IndexOfAppend(pre, last, k);
      if last.0 == k {
        assert forall j :: 0 <= j < |pre| ==> Keys(pre)[j] == d[j].0 != last.0;
      }
    }
  }

  /**
   * `for k, v in d.items(): out[k] = f(k, v)`, where `f` may raise: the new
   * dict in `d`'s order, or the first exception.
   */
  function TryMap<V, W>(d: Dict<V>, f: (string, V) -> Result<W>): Result<Dict<W>>
  {
    if d == [] then Ok([])
    else
      var last := d[|d| - 1];
      match TryMap(d[..|d| - 1], f)
      case Err(e) => Err(e)
      case Ok(acc) =>
        match f(last.0, last.1)
        case Err(e) => Err(e)
        case Ok(w) => Ok(Set(acc, last.0, w))
  }

  /** One more entry: the loop so far, then that entry's result or its exception. */
  lemma TryMapStep<V, W>(d: Dict<V>, f: (string, V) -> Result<W>, i: nat)
    requires i < |d|
    ensures TryMap(d[..i + 1], f)
         == match TryMap(d[..i], f)
            case Err(e) => Err(e)
            case Ok(acc) =>
              match f(d[i].0, d[i].1)
              case Err(e) => Err(e)
              case Ok(w) => Ok(Set(acc, d[i].0, w))
  {
    assert d[..i + 1][..i] == d[..i];
  }

  /** Once one entry raises, the loop raises that exception whatever follows. */
  lemma {:induction false} TryMapStopsAtError<V, W>(d: Dict<V>, f: (string, V) -> Result<W>, i: nat)
    requires i <= |d|
    requires TryMap(d[..i], f).Err?
    ensures TryMap(d, f) == TryMap(d[..i], f)
    decreases |d| - i
  {
    if i == |d| {
      assert d[..i] == d;
    } else {
      assert d[..|d| - 1][..i] == d[..i];
      TryMapStopsAtError(d[..|d| - 1], f, i);
    }
  }

  /** Entry `i` maps to `w` after the loop so far succeeded: the loop goes on with `w` stored. */
  lemma TryMapOkAt<V, W>(d: Dict<V>, f: (string, V) -> Result<W>, i: nat, acc: Dict<W>, w: W)
    requires i < |d| && TryMap(d[..i], f) == Ok(acc) && f(d[i].0, d[i].1) == Ok(w)
    ensures TryMap(d[..i + 1], f) == Ok(Set(acc, d[i].0, w))
  {
    TryMapStep(d, f, i);
  }

  /** Entry `i` raises after the loop so far succeeded: the whole loop raises that. */
  lemma TryMapErrAt<V, W>(d: Dict<V>, f: (string, V) -> Result<W>, i: nat, acc: Dict<W>, e: Error)
    requires i < |d| && TryMap(d[..i], f) == Ok(acc) && f(d[i].0, d[i].1) == Err(e)
    ensures TryMap(d, f) == Err(e)
  {
    TryMapStep(d, f, i);
    TryMapStopsAtError(d, f, i + 1);
  }

  /** No entry of `d` makes `f` raise. */
  predicate AllOk<V, W>(d: Dict<V>, f: (string, V) -> Result<W>)
  {
    forall i :: 0 <= i < |d| ==> f(d[i].0, d[i].1).Ok?
  }

  lemma AllOkSnoc<V, W>(d: Dict<V>, f: (string, V) -> Result<W>)
    requires d != []
    ensures AllOk(d, f) <==> AllOk(d[..|d| - 1], f) && f(d[|d| - 1].0, d[|d| - 1].1).Ok?
  {
    var n := |d| - 1;
    assert forall i :: 0 <= i < n ==> d[..n][i] == d[i];
  }

  /** The loop succeeds exactly when no entry raises. */
  lemma {:induction false} TryMapOk<V, W>(d: Dict<V>, f: (string, V) -> Result<W>)
    ensures TryMap(d, f).Ok? <==> AllOk(d, f)
  {
    if d != [] {
      TryMapOk(d[..|d| - 1], f);
      AllOkSnoc(d, f);
    }
  }

  /** `r` maps each key of `d` to what `f` makes of its entry. */
  ghost predicate MapsEach<V, W>(r: Dict<W>, d: Dict<V>, f: (string, V) -> Result<W>)
  {
    forall i :: 0 <= i < |d| ==> f(d[i].0, d[i].1).Ok? && Get(r, d[i].0) == Some(f(d[i].0, d[i].1).value)
  }

  lemma MapsEachSnoc<V, W>(acc: Dict<W>, d: Dict<V>, f: (string, V) -> Result<W>)
    requires NoDup(d) && d != []
    requires Keys(acc) == Keys(d[..|d| - 1]) && MapsEach(acc, d[..|d| - 1], f)
    requires f(d[|d| - 1].0, d[|d| - 1].1).Ok?
    ensures var last := d[|d| - 1];
      var r := Set(acc, last.0, f(last.0, last.1).value);
      Keys(r) == Keys(d) && MapsEach(r, d, f)
  {
    var n := |d| - 1;
    var pre, last := d[..n], d[n];
    var w := f(last.0, last.1).value;
    assert last.0 !in Keys(pre) by {
      assert forall j :: 0 <= j < n ==> Keys(pre)[j] == d[j].0 != last.0;
    }
    assert Keys(d) == Keys(pre) + [last.0];
    var r := Set(acc, last.0, w);
    SetNew(acc, last.0, w);
    assert Keys(r) == Keys(acc) + [last.0];
    MapsEachSet(acc, d, f, w, r);
  }

  /** The entries before the last still map as before once the last one is written. */
  lemma MapsEachSet<V, W>(acc: Dict<W>, d: Dict<V>, f: (string, V) -> Result<W>, w: W, r: Dict<W>)
    requires d != [] && d[|d| - 1].0 !in Keys(d[..|d| - 1])
    requires MapsEach(acc, d[..|d| - 1], f)
    requires f(d[|d| - 1].0, d[|d| - 1].1) == Ok(w) && r == Set(acc, d[|d| - 1].0, w)
    ensures MapsEach(r, d, f)
  {
    var n := |d| - 1;
    forall i | 0 <= i < |d| ensures f(d[i].0, d[i].1).Ok? && Get(r, d[i].0) == Some(f(d[i].0, d[i].1).value) {
      GetSet(acc, d[n].0, w, d[i].0);
      if i < n {
        assert d[..n][i] == d[i];
        assert Keys(d[..n])[i] == d[i].0;
      }
    }
  }

  /** A successful loop has the input's keys in order, each mapped to its own result. */
  lemma {:induction false} TryMapEntries<V, W>(d: Dict<V>, f: (string, V) -> Result<W>)
    requires NoDup(d)
    requires TryMap(d, f).Ok?
    ensures Keys(TryMap(d, f).value) == Keys(d)
    ensures MapsEach(TryMap(d, f).value, d, f)
  {
    if d != [] {
      var n := |d| - 1;
      assert NoDup(d[..n]);
      TryMapEntries(d[..n], f);
      MapsEachSnoc(TryMap(d[..n], f).value, d, f);
    }
  }

  /** A failed loop raises the exception of the first entry that raises. */
  lemma {:induction false} TryMapFirstError<V, W>(d: Dict<V>, f: (string, V) -> Result<W>)
    requires TryMap(d, f).Err?
    ensures exists i :: (0 <= i < |d| && f(d[i].0, d[i].1) == Err(TryMap(d, f).error)
      && forall j :: 0 <= j < i ==> f(d[j].0, d[j].1).Ok?)
  {
    var n := |d| - 1;
    var pre := d[..n];
    assert forall i :: 0 <= i < n ==> pre[i] == d[i];
    if TryMap(pre, f).Err? {
      TryMapFirstError(pre, f);
      var i :| 0 <= i < n && f(pre[i].0, pre[i].1) == Err(TryMap(pre, f).error)
        && forall j :: 0 <= j < i ==> f(pre[j].0, pre[j].1).Ok?;
      assert d[i] == pre[i];
    } else {
      TryMapOk(pre, f);
    }
  }

  /** The loop's keys are the input's, each once, whether or not the input repeats one. */
  lemma {:induction false} TryMapKeys<V, W>(d: Dict<V>, f: (string, V) -> Result<W>)
    requires TryMap(d, f).Ok?
    ensures NoDup(TryMap(d, f).value)
    ensures forall k :: k in Keys(TryMap(d, f).value) <==> k in Keys(d)
  {
    if d != [] {
      var n := |d| - 1;
      TryMapKeys(d[..n], f);
      var acc, w := TryMap(d[..n], f).value, f(d[n].0, d[n].1).value;
      SetKeys(acc, d[n].0, w, TryMap(d, f).value);
      KeysSnoc(d);
    }
  }

  /** The keys of a non-empty dict: those before its last entry, then the last key. */
  lemma KeysSnoc<V>(d: Dict<V>)
    requires d != []
    ensures Keys(d) == Keys(d[..|d| - 1]) + [d[|d| - 1].0]
  {
  }

  /** The keys after `d[k] = v` are the old ones and `k`. */
  lemma SetKeys<V>(d: Dict<V>, k: string, v: V, r: Dict<V>)
    requires r == Set(d, k, v)
    ensures NoDup(d) ==> NoDup(r)
    ensures forall k' :: k' in Keys(r) <==> k' in Keys(d) || k' == k
  {
  }

  /** Every value of `d` satisfies `p`. */
  ghost predicate AllValues<V>(d: Dict<V>, p: V -> bool)
  {
    forall j :: 0 <= j < |d| ==> p(d[j].1)
  }

  lemma SetValues<V>(d: Dict<V>, k: string, v: V, p: V -> bool)
    requires AllValues(d, p) && p(v)
    ensures AllValues(Set(d, k, v), p)
  {
    var r := Set(d, k, v);
    match IndexOf(d, k)
    case Some(i) =>
      assert forall j :: 0 <= j < |r| ==> r[j].1 == if j == i then v else d[j].1;
    case None =>
      assert forall j :: 0 <= j < |r| ==> r[j].1 == if j == |d| then v else d[j].1;
  }

  /** A property every result of `f` has, every value of a successful loop has. */
  lemma {:induction false} TryMapValues<V, W>(d: Dict<V>, f: (string, V) -> Result<W>, p: W -> bool)
    requires TryMap(d, f).Ok?
    requires forall i :: 0 <= i < |d| && f(d[i].0, d[i].1).Ok? ==> p(f(d[i].0, d[i].1).value)
    ensures AllValues(TryMap(d, f).value, p)
  {
    if d != [] {
      var n := |d| - 1;
      assert forall i :: 0 <= i < n ==> d[..n][i] == d[i];
      TryMapValues(d[..n], f, p);
      SetValues(TryMap(d[..n], f).value, d[n].0, f(d[n].0, d[n].1).value, p);
    }
  }
}
