/**
 * Python's insertion-ordered `dict` with string keys, as a list of (key, value) pairs.
 * `Get` reads `d[k]`, `Set` is `d[k] = v` (an existing key keeps its position, a new key
 * goes last), `Del` is `del d[k]` and `Update` is `d.update(e)`.
 */
module PyDict {
  import opened Wrappers

  type Dict<V> = seq<(string, V)>

  function KeySet<V>(d: Dict<V>): set<string>
  {
    set i | 0 <= i < |d| :: d[i].0
  }

  predicate UniqueKeys<V>(d: Dict<V>)
  {
    forall i, j :: 0 <= i < j < |d| ==> d[i].0 != d[j].0
  }

  /** `d[k]` when `k` is present; `None` where Python raises `KeyError`. */
  function Get<V>(d: Dict<V>, k: string): (r: Option<V>)
    ensures r.Some? <==> k in KeySet(d)
    ensures r.Some? ==> (k, r.value) in d
  {
    if d == [] then None
    else if d[0].0 == k then Some(d[0].1)
    else
      assert KeySet(d) == {d[0].0} + KeySet(d[1..]);
      Get(d[1..], k)
  }

  function Set<V>(d: Dict<V>, k: string, v: V): Dict<V>
  {
    if d == [] then [(k, v)]
    else if d[0].0 == k then [(k, v)] + d[1..]
    else [d[0]] + Set(d[1..], k, v)
  }

  function Del<V>(d: Dict<V>, k: string): Dict<V>
  {
    if d == [] then []
    else if d[0].0 == k then Del(d[1..], k)
    else [d[0]] + Del(d[1..], k)
  }

  function Update<V>(d: Dict<V>, e: Dict<V>): Dict<V>
    decreases |e|
  {
    if e == [] then d else Update(Set(d, e[0].0, e[0].1), e[1..])
  }

  lemma KeySetCons<V>(d: Dict<V>)
    requires d != []
    ensures KeySet(d) == {d[0].0} + KeySet(d[1..])
  {
    assert forall i :: 1 <= i < |d| ==> d[i] == d[1..][i - 1];
  }

  /** After `d[k] = v`, `k` reads `v` and every other key reads what it read before. */
  lemma {:induction false} GetSet<V>(d: Dict<V>, k: string, v: V, k': string)
    ensures Get(Set(d, k, v), k') == if k' == k then Some(v) else Get(d, k')
  {
    if d != [] && d[0].0 != k {
      GetSet(d[1..], k, v, k');
    }
  }

  lemma {:induction false} KeySetSet<V>(d: Dict<V>, k: string, v: V)
    ensures KeySet(Set(d, k, v)) == KeySet(d) + {k}
  {
    if d == [] {
      KeySetCons(Set(d, k, v));
    } else if d[0].0 == k {
      KeySetCons(d);
      KeySetCons(Set(d, k, v));
    } else {
      KeySetSet(d[1..], k, v);
      KeySetCons(d);
      KeySetCons(Set(d, k, v));
    }
  }

  /** Assignment never introduces a repeated key. */
  lemma {:induction false} SetUnique<V>(d: Dict<V>, k: string, v: V)
    requires UniqueKeys(d)
    ensures UniqueKeys(Set(d, k, v))
  {
    if d != [] {
      KeySetCons(d);
      if d[0].0 == k {
        assert Set(d, k, v)[1..] == d[1..];
      } else {
        SetUnique(d[1..], k, v);
        KeySetSet(d[1..], k, v);
        var r := Set(d, k, v);
        assert r[1..] == Set(d[1..], k, v);
        forall j | 1 <= j < |r| ensures r[0].0 != r[j].0 {
          assert r[j].0 in KeySet(r[1..]) by { assert r[j] == r[1..][j - 1]; }
        }
      }
    }
  }

  /** Assigning a key twice leaves the last value, in the key's original place. */
  lemma {:induction false} SetSet<V>(d: Dict<V>, k: string, v1: V, v2: V)
    ensures Set(Set(d, k, v1), k, v2) == Set(d, k, v2)
  {
    if d != [] && d[0].0 != k {
      SetSet(d[1..], k, v1, v2);
    }
  }

  /** After `del d[k]`, `k` is absent and every other key reads what it read before. */
  lemma {:induction false} GetDel<V>(d: Dict<V>, k: string, k': string)
    ensures Get(Del(d, k), k') == if k' == k then None else Get(d, k')
  {
    if d != [] {
      GetDel(d[1..], k, k');
    }
  }

  lemma {:induction false} KeySetUpdate<V>(d: Dict<V>, e: Dict<V>)
    ensures KeySet(Update(d, e)) == KeySet(d) + KeySet(e)
    decreases |e|
  {
    if e != [] {
      KeySetUpdate(Set(d, e[0].0, e[0].1), e[1..]);
      KeySetSet(d, e[0].0, e[0].1);
      KeySetCons(e);
    }
  }

  lemma {:induction false} UpdateUnique<V>(d: Dict<V>, e: Dict<V>)
    requires UniqueKeys(d)
    ensures UniqueKeys(Update(d, e))
    decreases |e|
  {
    if e != [] {
      SetUnique(d, e[0].0, e[0].1);
      UpdateUnique(Set(d, e[0].0, e[0].1), e[1..]);
    }
  }

  /** `d.update(e)`: keys of `e` win, the other keys of `d` keep their values. */
  lemma {:induction false} GetUpdate<V>(d: Dict<V>, e: Dict<V>, k: string)
    requires UniqueKeys(e)
    ensures Get(Update(d, e), k) == if k in KeySet(e) then Get(e, k) else Get(d, k)
    decreases |e|
  {
    if e != [] {
      var d' := Set(d, e[0].0, e[0].1);
      assert UniqueKeys(e[1..]);
      GetUpdate(d', e[1..], k);
      GetSet(d, e[0].0, e[0].1, k);
      KeySetCons(e);
      if k == e[0].0 {
        assert k !in KeySet(e[1..]);
      }
    }
  }

  /** `for (k, v) in entries: d[k] = v` from an empty dict, where computing a value may raise: the first failure stops it. */
  function AssignAll<V, E>(entries: seq<(string, Result<V, E>)>): Result<Dict<V>, E>
    decreases |entries|
  {
    if entries == [] then Ok([])
    else
      var n := |entries| - 1;
      match AssignAll(entries[..n])
      case Err(e) => Err(e)
      case Ok(out) =>
        match entries[n].1
        case Err(e) => Err(e)
        case Ok(v) => Ok(Set(out, entries[n].0, v))
  }

  lemma {:induction false} AssignAllErrPropagates<V, E>(entries: seq<(string, Result<V, E>)>, n: nat)
    requires n <= |entries| && AssignAll(entries[..n]).Err?
    ensures AssignAll(entries) == AssignAll(entries[..n])
    decreases |entries|
  {
    if n < |entries| {
      var m := |entries| - 1;
      assert entries[..m][..n] == entries[..n];
      AssignAllErrPropagates(entries[..m], n);
    } else {
      assert entries[..n] == entries;
    }
  }

  lemma {:induction false} AssignAllSucceeds<V, E>(entries: seq<(string, Result<V, E>)>)
    ensures AssignAll(entries).Ok? <==> forall i :: 0 <= i < |entries| ==> entries[i].1.Ok?
    decreases |entries|
  {
    if entries != [] {
      var n := |entries| - 1;
      AssignAllSucceeds(entries[..n]);
      assert forall i :: 0 <= i < n ==> entries[..n][i] == entries[i];
    }
  }

  /** One key per distinct entry key. */
  lemma {:induction false} AssignAllKeys<V, E>(entries: seq<(string, Result<V, E>)>, m: Dict<V>)
    requires AssignAll(entries) == Ok(m)
    ensures UniqueKeys(m)
    ensures forall k :: k in KeySet(m) <==> exists i :: 0 <= i < |entries| && entries[i].0 == k
    decreases |entries|
  {
    if entries != [] {
      var n := |entries| - 1;
      var prefix := entries[..n];
      var out := AssignAll(prefix).value;
      var v := entries[n].1.value;
      assert m == Set(out, entries[n].0, v);
      AssignAllKeys(prefix, out);
      SetUnique(out, entries[n].0, v);
      KeySetSet(out, entries[n].0, v);
      forall k | k in KeySet(m) ensures exists i :: 0 <= i < |entries| && entries[i].0 == k {
        if k != entries[n].0 {
          var i :| 0 <= i < n && prefix[i].0 == k;
          assert entries[i].0 == k;
        }
      }
      forall k | exists i :: 0 <= i < |entries| && entries[i].0 == k ensures k in KeySet(m) {
        var i :| 0 <= i < |entries| && entries[i].0 == k;
        if i < n {
          assert prefix[i].0 == k;
        }
      }
    }
  }

  /** The last entry with a given key decides that key's value. */
  lemma {:induction false} AssignAllLastWins<V, E>(entries: seq<(string, Result<V, E>)>, m: Dict<V>, i: nat)
    requires AssignAll(entries) == Ok(m)
    requires i < |entries| && forall j :: i < j < |entries| ==> entries[j].0 != entries[i].0
    ensures entries[i].1.Ok? && Get(m, entries[i].0) == Some(entries[i].1.value)
    decreases |entries|
  {
    var n := |entries| - 1;
    var prefix := entries[..n];
    var out := AssignAll(prefix).value;
    var v := entries[n].1.value;
    assert m == Set(out, entries[n].0, v);
    GetSet(out, entries[n].0, v, entries[i].0);
    if i < n {
      assert forall j :: i < j < n ==> prefix[j] == entries[j];
      AssignAllLastWins(prefix, out, i);
    }
  }
}
