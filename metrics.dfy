/** The handler's selection of `(key, value)` metrics from one response:
    the allow-list filter for flat message types, the `outer__inner`
    expansion for `UPDATE_VIEW_INFO`, and the normalisation of empty values. */
module Metrics {
  import opened Values
  import opened AllowList

  /** One item the handler submits: its key inside the item brackets and
      its value after normalisation. */
  datatype Metric = Metric(key: string, value: Value)

  /** Field names starting with `s` denote string items. */
  predicate StringNamed(name: string)
  {
    |name| > 0 && name[0] == 's'
  }

  /** What the collector expects for an empty string item: two double quotes. */
  const EmptyStringMarker: string := "\"\""

  /** An empty value becomes `""` for a string item and `0` otherwise; any
      other value is kept. The sender therefore never sees an empty value. */
  function Normalize(name: string, v: Value): (r: Value)
    ensures !Falsy(v) ==> r == v
    ensures Falsy(v) && StringNamed(name) ==> Render(r) == EmptyStringMarker
    ensures Falsy(v) && !StringNamed(name) ==> Render(r) == "0"
    ensures Render(r) != []
  {
    if !Falsy(v) then v
    else if StringNamed(name) then VStr(EmptyStringMarker)
    else VInt(0)
  }

  /** The metrics of one mapping-valued field of `UPDATE_VIEW_INFO`: one per
      nested entry, keyed `outer__inner`, normalised by the inner name. */
  function NestedMetrics(outer: string, entries: seq<Field>): seq<Metric>
  {
    if entries == [] then []
    else
      [Metric(outer + "__" + entries[0].name, Normalize(entries[0].name, entries[0].value))]
      + NestedMetrics(outer, entries[1..])
  }

  /** The metrics of a field's nested entries, nothing for a scalar. */
  function NestedPart(f: Field): seq<Metric>
  {
    if f.value.VMap? then NestedMetrics(f.name, f.value.entries) else []
  }

  /** The metrics of one top-level field of a response of a known type
      `msg` whose allow-list is `names`. */
  function FieldMetrics(msg: string, names: seq<string>, f: Field): seq<Metric>
  {
    if f.name !in names && msg != UpdateViewInfo then []
    else if msg == UpdateViewInfo then NestedPart(f)
    else [Metric(f.name, Normalize(f.name, f.value))]
  }

  /** The metrics of the top-level fields of a response of a known type, in
      the order the response iterates them. */
  function Collect(msg: string, names: seq<string>, data: seq<Field>): seq<Metric>
  {
    if data == [] then [] else FieldMetrics(msg, names, data[0]) + Collect(msg, names, data[1..])
  }

  /** Every metric the handler submits for response `(msg, data)`; a message
      type outside the table submits nothing. */
  function Filter(msg: string, data: seq<Field>): seq<Metric>
  {
    if msg !in RelevantFields then [] else Collect(msg, AllowedNames(msg), data)
  }

  // ---------------------------------------------------------------------
  // Reference descriptions by position

  /** The positions of the fields whose names the allow-list admits, ascending. */
  function Selected(names: seq<string>, data: seq<Field>): seq<nat>
    decreases |data|
  {
    if data == [] then []
    else
      Selected(names, data[..|data| - 1])
      + (if data[|data| - 1].name in names then [|data| - 1] else [])
  }

  /** The pairs (field position, entry position) of every nested entry of the
      mapping-valued fields, in lexicographic order. */
  function NestedPositions(data: seq<Field>): seq<(nat, nat)>
    decreases |data|
  {
    if data == [] then []
    else NestedPositions(data[..|data| - 1]) + EntryPositions(|data| - 1, data[|data| - 1].value)
  }

  function EntryPositions(i: nat, v: Value): (r: seq<(nat, nat)>)
  {
    if v.VMap? then seq(|v.entries|, j requires 0 <= j < |v.entries| => (i, j)) else []
  }

  predicate LexLess(p: (nat, nat), q: (nat, nat))
  {
    p.0 < q.0 || (p.0 == q.0 && p.1 < q.1)
  }

  // ---------------------------------------------------------------------
  // Lemmas

  lemma {:induction false} CollectAppend(msg: string, names: seq<string>, a: seq<Field>, b: seq<Field>)
    ensures Collect(msg, names, a + b) == Collect(msg, names, a) + Collect(msg, names, b)
    decreases |a|
  {
    if a == [] {
      assert a + b == b;
    } else {
      assert (a + b)[1..] == a[1..] + b;
      CollectAppend(msg, names, a[1..], b);
    }
  }

  /** Field `i` contributes its metrics between those of the fields before it
      and those of the fields after it. */
  lemma FieldSplit(msg: string, names: seq<string>, data: seq<Field>, i: nat)
    requires i < |data|
    ensures Collect(msg, names, data) ==
      Collect(msg, names, data[..i]) + FieldMetrics(msg, names, data[i]) + Collect(msg, names, data[i + 1..])
  {
    assert data == data[..i] + data[i..];
    CollectAppend(msg, names, data[..i], data[i..]);
    assert data[i..][1..] == data[i + 1..];
  }

  /** A message type outside the table yields no metric. */
  lemma UnknownMessageIgnored(msg: string, data: seq<Field>)
    requires msg !in RelevantFields
    ensures Filter(msg, data) == []
  {
  }

  /** `ix` is strictly increasing and below `n`. */
  predicate Ascending(ix: seq<nat>, n: nat)
  {
    (forall k :: 0 <= k < |ix| ==> ix[k] < n)
    && (forall k, l :: 0 <= k < l < |ix| ==> ix[k] < ix[l])
  }

  lemma {:induction false} SelectedAscending(names: seq<string>, data: seq<Field>)
    ensures Ascending(Selected(names, data), |data|)
    decreases |data|
  {
    if data != [] {
      var n := |data| - 1;
      SelectedAscending(names, data[..n]);
    }
  }

  /** A position is selected exactly when its name is in the allow-list. */
  lemma {:induction false} SelectedComplete(names: seq<string>, data: seq<Field>)
    ensures forall i :: 0 <= i < |data| ==> (i in Selected(names, data) <==> data[i].name in names)
    decreases |data|
  {
    if data != [] {
      var n := |data| - 1;
      var p := data[..n];
      SelectedComplete(names, p);
      SelectedAscending(names, p);
      var ix, ixp := Selected(names, data), Selected(names, p);
      assert ix == ixp + (if data[n].name in names then [n] else []);
      forall i | 0 <= i < n
        ensures i in ix <==> data[i].name in names
      {
        assert data[i] == p[i];
      }
    }
  }

  /** For a flat message type, entry `k` of the metrics is the field at the
      `k`-th selected position, normalised by its own name. With the two
      lemmas above, the metrics are exactly the allowed fields in the order
      of the response. */
  lemma {:induction false} FlatFilter(msg: string, names: seq<string>, data: seq<Field>)
    requires msg != UpdateViewInfo
    ensures var ix, ms := Selected(names, data), Collect(msg, names, data);
      |ms| == |ix| && Ascending(ix, |data|)
      && (forall k :: 0 <= k < |ix| ==>
            ms[k] == Metric(data[ix[k]].name, Normalize(data[ix[k]].name, data[ix[k]].value)))
    decreases |data|
  {
    SelectedAscending(names, data);
    if data != [] {
      var n := |data| - 1;
      var p := data[..n];
      FlatFilter(msg, names, p);
      assert data == p + [data[n]];
      CollectAppend(msg, names, p, [data[n]]);
      assert Collect(msg, names, [data[n]]) == FieldMetrics(msg, names, data[n]);
      var ix, ixp := Selected(names, data), Selected(names, p);
      var ms, mp := Collect(msg, names, data), Collect(msg, names, p);
      assert ix == ixp + (if data[n].name in names then [n] else []);
      assert ms == mp + FieldMetrics(msg, names, data[n]);
      forall k | 0 <= k < |ixp|
        ensures ms[k] == Metric(data[ix[k]].name, Normalize(data[ix[k]].name, data[ix[k]].value))
      {
        assert ix[k] == ixp[k] && ms[k] == mp[k] && data[ixp[k]] == p[ixp[k]];
      }
    }
  }

  /** For a flat message type with allow-list `names`, a field yields a
      metric if and only if its name is allowed: every metric key is an
      allowed name, and every allowed field yields its normalised metric. */
  lemma FlatSelection(msg: string, names: seq<string>, data: seq<Field>)
    requires msg != UpdateViewInfo
    ensures forall m :: m in Collect(msg, names, data) ==> m.key in names
    ensures forall i :: 0 <= i < |data| && data[i].name in names ==>
      Metric(data[i].name, Normalize(data[i].name, data[i].value)) in Collect(msg, names, data)
  {
    FlatFilter(msg, names, data);
    SelectedComplete(names, data);
    var ix, ms := Selected(names, data), Collect(msg, names, data);
    forall i | 0 <= i < |data| && data[i].name in names
      ensures Metric(data[i].name, Normalize(data[i].name, data[i].value)) in ms
    {
      var k :| 0 <= k < |ix| && ix[k] == i;
      assert ms[k] == Metric(data[i].name, Normalize(data[i].name, data[i].value));
    }
    forall m | m in ms
      ensures m.key in names
    {
      var k :| 0 <= k < |ms| && ms[k] == m;
      assert ix[k] in ix;
    }
  }

  /** A mapping-valued field expands to one metric per nested entry, keyed
      `outer__inner` and normalised by the inner name, in the mapping's order. */
  lemma {:induction false} NestedExpansion(outer: string, entries: seq<Field>)
    ensures |NestedMetrics(outer, entries)| == |entries|
    ensures forall j :: 0 <= j < |entries| ==>
      NestedMetrics(outer, entries)[j]
        == Metric(outer + "__" + entries[j].name, Normalize(entries[j].name, entries[j].value))
    decreases |entries|
  {
    if entries != [] {
      NestedExpansion(outer, entries[1..]);
    }
  }

  /** For `UPDATE_VIEW_INFO`, field `i` contributes its nested metrics when
      its value is a mapping and nothing when it is a scalar, between the
      metrics of the fields before it and after it. */
  lemma UpdateViewInfoField(names: seq<string>, data: seq<Field>, i: nat)
    requires i < |data|
    ensures Collect(UpdateViewInfo, names, data) ==
      Collect(UpdateViewInfo, names, data[..i])
      + NestedPart(data[i])
      + Collect(UpdateViewInfo, names, data[i + 1..])
  {
    FieldSplit(UpdateViewInfo, names, data, i);
  }

  /** Every position of `ps` names an existing entry of a mapping-valued field of `data`. */
  predicate InBounds(data: seq<Field>, ps: seq<(nat, nat)>)
  {
    forall k :: 0 <= k < |ps| ==>
      (ps[k].0 < |data| && data[ps[k].0].value.VMap? && ps[k].1 < |data[ps[k].0].value.entries|)
  }

  lemma {:induction false} NestedPositionsBounds(data: seq<Field>)
    ensures InBounds(data, NestedPositions(data))
    decreases |data|
  {
    if data != [] {
      var n := |data| - 1;
      NestedPositionsBounds(data[..n]);
      BoundsExtend(data[..n], data[n], NestedPositions(data[..n]));
      assert data == data[..n] + [data[n]];
    }
  }

  /** `ps` is strictly increasing in lexicographic order. */
  predicate LexOrdered(ps: seq<(nat, nat)>)
  {
    forall k, l :: 0 <= k < l < |ps| ==> LexLess(ps[k], ps[l])
  }

  lemma {:induction false} NestedPositionsOrdered(data: seq<Field>)
    ensures LexOrdered(NestedPositions(data))
    decreases |data|
  {
    if data != [] {
      var n := |data| - 1;
      var p := data[..n];
      NestedPositionsOrdered(p);
      NestedPositionsBounds(p);
      var ps, pp := NestedPositions(data), NestedPositions(p);
      var tail := EntryPositions(n, data[n].value);
      assert ps == pp + tail;
      forall k, l | 0 <= k < l < |ps|
        ensures LexLess(ps[k], ps[l])
      {
        if l < |pp| {
          assert ps[k] == pp[k] && ps[l] == pp[l];
        } else if k < |pp| {
          assert ps[k] == pp[k];
          assert pp[k].0 < |p|;
          assert ps[l] == tail[l - |pp|];
        } else {
          assert ps[k] == tail[k - |pp|] && ps[l] == tail[l - |pp|];
        }
      }
    }
  }

  /** `ps` holds exactly the pairs of a mapping-valued field and one of its entries. */
  ghost predicate Complete(data: seq<Field>, ps: seq<(nat, nat)>)
  {
    forall i, j :: 0 <= i < |data| && 0 <= j ==>
      ((i, j) in ps <==> data[i].value.VMap? && j < |data[i].value.entries|)
  }

  lemma {:induction false} NestedPositionsComplete(data: seq<Field>)
    ensures Complete(data, NestedPositions(data))
    decreases |data|
  {
    if data != [] {
      var n := |data| - 1;
      var p := data[..n];
      NestedPositionsComplete(p);
      NestedPositionsBounds(p);
      var ps, pp := NestedPositions(data), NestedPositions(p);
      var f := data[n];
      var tail := EntryPositions(n, f.value);
      assert ps == pp + tail;
      forall i, j | 0 <= i < n && 0 <= j
        ensures (i, j) in ps <==> data[i].value.VMap? && j < |data[i].value.entries|
      {
        assert data[i] == p[i];
      }
      forall j | 0 <= j
        ensures (n, j) in ps <==> f.value.VMap? && j < |f.value.entries|
      {
        if f.value.VMap? && j < |f.value.entries| {
          assert tail[j] == (n, j);
        }
        if (n, j) in tail {
          var t :| 0 <= t < |tail| && tail[t] == (n, j);
        }
      }
    }
  }

  /** The metric of nested entry `q.1` of field `q.0`: keyed `outer__inner`
      and normalised by the inner name. */
  function EntryMetric(data: seq<Field>, q: (nat, nat)): Metric
    requires q.0 < |data| && data[q.0].value.VMap? && q.1 < |data[q.0].value.entries|
  {
    var e := data[q.0].value.entries[q.1];
    Metric(data[q.0].name + "__" + e.name, Normalize(e.name, e.value))
  }

  lemma EntryMetricPrefix(p: seq<Field>, f: Field, q: (nat, nat))
    requires q.0 < |p| && p[q.0].value.VMap? && q.1 < |p[q.0].value.entries|
    ensures EntryMetric(p + [f], q) == EntryMetric(p, q)
  {
    assert (p + [f])[q.0] == p[q.0];
  }

  /** Metric `k` of `ms` is the nested entry at position `k` of `ps`. */
  predicate NestedMatches(data: seq<Field>, ps: seq<(nat, nat)>, ms: seq<Metric>)
  {
    |ms| == |ps| && InBounds(data, ps)
    && forall k :: 0 <= k < |ps| ==> ms[k] == EntryMetric(data, ps[k])
  }

  lemma BoundsExtend(p: seq<Field>, f: Field, pp: seq<(nat, nat)>)
    requires InBounds(p, pp)
    ensures InBounds(p + [f], pp + EntryPositions(|p|, f.value))
  {
    var data, ps, tail := p + [f], pp + EntryPositions(|p|, f.value), EntryPositions(|p|, f.value);
    forall k | 0 <= k < |ps|
      ensures ps[k].0 < |data| && data[ps[k].0].value.VMap? && ps[k].1 < |data[ps[k].0].value.entries|
    {
      if k < |pp| {
        assert ps[k] == pp[k] && data[pp[k].0] == p[pp[k].0];
      } else {
        assert ps[k] == tail[k - |pp|];
      }
    }
  }

  lemma MatchesExtend(p: seq<Field>, f: Field, pp: seq<(nat, nat)>, mp: seq<Metric>)
    requires NestedMatches(p, pp, mp)
    ensures NestedMatches(p + [f], pp + EntryPositions(|p|, f.value), mp + NestedPart(f))
  {
    var data, tail, nested := p + [f], EntryPositions(|p|, f.value), NestedPart(f);
    var ps, ms := pp + tail, mp + nested;
    BoundsExtend(p, f, pp);
    if f.value.VMap? {
      NestedExpansion(f.name, f.value.entries);
    }
    forall k | 0 <= k < |pp|
      ensures ms[k] == EntryMetric(data, ps[k])
    {
      assert ps[k] == pp[k] && ms[k] == mp[k];
      EntryMetricPrefix(p, f, pp[k]);
    }
    forall k | |pp| <= k < |ps|
      ensures ms[k] == EntryMetric(data, ps[k])
    {
      assert ps[k] == tail[k - |pp|] && ms[k] == nested[k - |pp|];
    }
  }

  /** For `UPDATE_VIEW_INFO`, the `k`-th metric is the nested entry at the
      `k`-th position; the allow-list plays no part. With the three lemmas
      above, the metrics are exactly the entries of the mapping-valued
      fields, in order, and scalar fields contribute nothing. */
  lemma {:induction false} NestedFilter(names: seq<string>, data: seq<Field>)
    ensures var ps, ms := NestedPositions(data), Collect(UpdateViewInfo, names, data);
      |ms| == |ps| && InBounds(data, ps)
      && (forall k :: 0 <= k < |ps| ==> ms[k] == EntryMetric(data, ps[k]))
    decreases |data|
  {
    if data != [] {
      var n := |data| - 1;
      var p := data[..n];
      var f := data[n];
      NestedFilter(names, p);
      assert data == p + [f];
      CollectAppend(UpdateViewInfo, names, p, [f]);
      assert Collect(UpdateViewInfo, names, [f]) == NestedPart(f);
      MatchesExtend(p, f, NestedPositions(p), Collect(UpdateViewInfo, names, p));
      assert NestedMatches(data, NestedPositions(data), Collect(UpdateViewInfo, names, data));
    }
  }
}
