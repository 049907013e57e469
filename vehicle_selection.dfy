/** The `vehicles` object of the booking draft: vehicle name to the number of that vehicle
    chosen. `Object.entries` lists an object's string-named own properties in the order
    they were created (ECMA-262, OrdinaryOwnPropertyKeys, section 10.1.11.1), so the
    object is modelled as that list: names are unique, assigning an existing name keeps
    its place, a new name goes last, and `delete` takes the entry out. */
module VehicleSelection {
  import Decimal
  import Text

  datatype Entry = Entry(name: string, count: int)

  type Selection = seq<Entry>

  /** An object holds each property name once. */
  predicate UniqueNames(m: Selection)
  {
    forall i, j :: 0 <= i < j < |m| ==> m[i].name != m[j].name
  }

  predicate AllPositive(m: Selection)
  {
    forall i :: 0 <= i < |m| ==> m[i].count > 0
  }

  /** The sparse-map invariant: one entry per name, and a vehicle with no units chosen has
      no entry at all. */
  predicate Sparse(m: Selection)
  {
    UniqueNames(m) && AllPositive(m)
  }

  /** The position of `name` among the entries, -1 when it has none. */
  function IndexOf(m: Selection, name: string): (k: int)
    ensures -1 <= k < |m|
    ensures k == -1 <==> forall i :: 0 <= i < |m| ==> m[i].name != name
    ensures 0 <= k ==> m[k].name == name && forall i :: 0 <= i < k ==> m[i].name != name
  {
    if m == [] then -1
    else if m[0].name == name then 0
    else
      var k := IndexOf(m[1..], name);
      if k == -1 then -1 else k + 1
  }

  /** `vehicles[name] || 0`: the count of the entry for `name`, 0 when there is none. */
  function Count(m: Selection, name: string): (c: int)
    ensures AllPositive(m) ==> c >= 0
    ensures AllPositive(m) ==> (c == 0 <==> forall i :: 0 <= i < |m| ==> m[i].name != name)
  {
    if m == [] then 0
    else if m[0].name == name then m[0].count
    else
      assert AllPositive(m) ==> AllPositive(m[1..]) by {
        if AllPositive(m) {
          forall i | 0 <= i < |m[1..]| ensures m[1..][i].count > 0 { assert m[1..][i] == m[i + 1]; }
        }
      }
      Count(m[1..], name)
  }

  /** The count is the one stored at the position `IndexOf` finds. */
  lemma {:induction false} CountAtIndex(m: Selection, name: string)
    ensures Count(m, name) == if IndexOf(m, name) == -1 then 0 else m[IndexOf(m, name)].count
  {
    if m != [] && m[0].name != name {
      CountAtIndex(m[1..], name);
    }
  }

  /** The entries of every vehicle but `name`, in their order. */
  function Others(m: Selection, name: string): Selection
  {
    if m == [] then [] else (if m[0].name == name then [] else [m[0]]) + Others(m[1..], name)
  }

  /** `delete vehicles[name]`. */
  function Delete(m: Selection, name: string): (r: Selection)
    ensures UniqueNames(m) ==> UniqueNames(r) && IndexOf(r, name) == -1
    ensures AllPositive(m) ==> AllPositive(r)
    ensures Others(r, name) == Others(m, name)
  {
    var k := IndexOf(m, name);
    if k < 0 then m
    else
      OthersAround(m, k);
      OthersAppend(m[..k], m[k + 1..], name);
      RemoveAt(m, k);
      m[..k] + m[k + 1..]
  }

  /** Taking out the entry at `k` keeps the rest of the entries, one per name, and none of
      them has the name of the entry taken out. */
  lemma RemoveAt(m: Selection, k: int)
    requires 0 <= k < |m|
    ensures var r := m[..k] + m[k + 1..];
            (UniqueNames(m) ==> UniqueNames(r) && forall i :: 0 <= i < |r| ==> r[i].name != m[k].name) &&
            (AllPositive(m) ==> AllPositive(r))
  {
    var r := m[..k] + m[k + 1..];
    assert forall i :: 0 <= i < |r| ==> r[i] == m[if i < k then i else i + 1];
  }

  /** `vehicles[name] = v`: an existing entry is overwritten where it stands, a new one is
      appended. */
  function Put(m: Selection, name: string, v: int): (r: Selection)
    ensures UniqueNames(m) ==> UniqueNames(r)
    ensures AllPositive(m) && v > 0 ==> AllPositive(r)
    ensures IndexOf(r, name) == (if IndexOf(m, name) == -1 then |m| else IndexOf(m, name))
    ensures r[IndexOf(r, name)].count == v
    ensures Others(r, name) == Others(m, name)
  {
    var k := IndexOf(m, name);
    if k < 0 then
      var r := m + [Entry(name, v)];
      OthersAppend(m, [Entry(name, v)], name);
      assert r[|m|].name == name;
      assert forall i :: 0 <= i < |m| ==> r[i].name != name by {
        forall i | 0 <= i < |m| ensures r[i].name != name { assert r[i] == m[i]; }
      }
      r
    else
      var r := m[k := Entry(name, v)];
      OthersAround(m, k);
      OthersAround(r, k);
      assert r[..k] == m[..k] && r[k + 1..] == m[k + 1..];
      r
  }

  /** `Math.max(a, b)`: the larger of the two. */
  function Max(a: int, b: int): (r: int)
    ensures r >= a && r >= b && (r == a || r == b)
  {
    if a >= b then a else b
  }

  /** `handleVehicleCountChange(name, delta)`: add `delta` to the count, clamp at zero, and
      delete the entry when the result is zero. */
  function Adjust(m: Selection, name: string, delta: int): (r: Selection)
    ensures Sparse(m) ==> Sparse(r)
    ensures UniqueNames(m) ==> Count(r, name) == Max(0, Count(m, name) + delta)
    ensures Others(r, name) == Others(m, name)
    ensures UniqueNames(m) ==>
      IndexOf(r, name) == if Count(m, name) + delta <= 0 then -1
                          else if IndexOf(m, name) == -1 then |m|
                          else IndexOf(m, name)
  {
    var newCount := Max(0, Count(m, name) + delta);
    var r := if newCount == 0 then Delete(m, name) else Put(m, name, newCount);
    CountAtIndex(r, name);
    r
  }

  // ---- lemmas about Others ----

  lemma {:induction false} OthersAppend(a: Selection, b: Selection, name: string)
    ensures Others(a + b, name) == Others(a, name) + Others(b, name)
  {
    if a == [] {
      assert a + b == b;
    } else {
      assert (a + b)[1..] == a[1..] + b;
      OthersAppend(a[1..], b, name);
    }
  }

  /** Splitting the entries around position `k`, the entry of `name` itself drops out. */
  lemma {:induction false} OthersAround(m: Selection, k: int)
    requires 0 <= k < |m|
    ensures Others(m, m[k].name) == Others(m[..k], m[k].name) + Others(m[k + 1..], m[k].name)
  {
    var a, b, name := m[..k], m[k + 1..], m[k].name;
    var tail := [m[k]] + b;
    assert m == a + tail;
    OthersAppend(a, tail, name);
    assert tail[1..] == b;
    assert Others(tail, name) == Others(b, name);
  }

  /** Looking up another vehicle sees through the removal of `name`. */
  lemma {:induction false} CountInOthers(m: Selection, name: string, other: string)
    requires other != name
    ensures Count(Others(m, name), other) == Count(m, other)
  {
    if m != [] {
      CountInOthers(m[1..], name, other);
      if m[0].name != name {
        var o := Others(m, name);
        assert o == [m[0]] + Others(m[1..], name);
        assert o[1..] == Others(m[1..], name);
      } else {
        assert Others(m, name) == Others(m[1..], name);
      }
    }
  }

  /** After `handleVehicleCountChange(name, delta)` every other vehicle keeps its count. */
  lemma AdjustKeepsOthers(m: Selection, name: string, delta: int, other: string)
    requires other != name
    ensures Count(Adjust(m, name, delta), other) == Count(m, other)
  {
    var r := Adjust(m, name, delta);
    CountInOthers(m, name, other);
    CountInOthers(r, name, other);
  }

  /** Taking a vehicle down to zero and then choosing it again moves its entry to the end,
      behind every vehicle still chosen. */
  lemma ReaddMovesToEnd(m: Selection, name: string, delta: int)
    requires Sparse(m) && Count(m, name) > 0 && delta > 0
    ensures var r := Adjust(Adjust(m, name, -Count(m, name)), name, delta);
            IndexOf(r, name) == |r| - 1 && Count(r, name) == delta &&
            Others(r, name) == Others(m, name)
  {
    var cleared := Adjust(m, name, -Count(m, name));
    assert IndexOf(cleared, name) == -1;
    assert Count(cleared, name) == 0;
    var r := Adjust(cleared, name, delta);
    assert |r| == |cleared| + 1;
  }

  // ---- getTotalVehicles ----

  /** `Object.values(vehicles).reduce((sum, count) => sum + count, acc)`. */
  function Reduce(acc: int, m: Selection): (r: int)
    ensures m == [] ==> r == acc
    ensures AllPositive(m) ==> r >= acc + |m|
    decreases m
  {
    if m == [] then acc else Reduce(acc + m[0].count, m[1..])
  }

  /** The sum of the counts, as a reference definition. */
  function Sum(m: Selection): int
  {
    if m == [] then 0 else m[0].count + Sum(m[1..])
  }

  lemma {:induction false} ReduceIsSum(acc: int, m: Selection)
    ensures Reduce(acc, m) == acc + Sum(m)
    decreases m
  {
    if m != [] {
      ReduceIsSum(acc + m[0].count, m[1..]);
    }
  }

  lemma {:induction false} SumAtLeastLength(m: Selection)
    requires AllPositive(m)
    ensures Sum(m) >= |m|
  {
    if m != [] {
      SumAtLeastLength(m[1..]);
    }
  }

  /** `getTotalVehicles()`: the number of vehicles chosen. */
  function Total(m: Selection): (t: int)
    ensures t == Sum(m)
    ensures m == [] ==> t == 0
    ensures AllPositive(m) ==> t >= |m| && (t == 0 <==> m == [])
  {
    ReduceIsSum(0, m);
    assert AllPositive(m) ==> Sum(m) >= |m| by {
      if AllPositive(m) { SumAtLeastLength(m); }
    }
    Reduce(0, m)
  }

  /** With unique names, the sum is the count of `name` plus the sum of the others. */
  lemma {:induction false} SumOthers(m: Selection, name: string)
    requires UniqueNames(m)
    ensures Sum(m) == Count(m, name) + Sum(Others(m, name))
  {
    if m != [] {
      assert UniqueNames(m[1..]) by {
        forall i, j | 0 <= i < j < |m[1..]| ensures m[1..][i].name != m[1..][j].name {
          assert m[1..][i] == m[i + 1] && m[1..][j] == m[j + 1];
        }
      }
      SumOthers(m[1..], name);
      if m[0].name == name {
        assert forall i :: 0 <= i < |m[1..]| ==> m[1..][i].name != name by {
          forall i | 0 <= i < |m[1..]| ensures m[1..][i].name != name {
            assert m[1..][i] == m[i + 1];
            assert m[0].name != m[i + 1].name;
          }
        }
        OthersWithout(m[1..], name);
        assert Others(m, name) == m[1..];
        assert Count(m[1..], name) == 0;
      }
    }
  }

  lemma {:induction false} OthersWithout(m: Selection, name: string)
    requires forall i :: 0 <= i < |m| ==> m[i].name != name
    ensures Others(m, name) == m
  {
    if m != [] {
      OthersWithout(m[1..], name);
      assert [m[0]] + m[1..] == m;
    }
  }

  /** How `handleVehicleCountChange(name, delta)` moves the total: the old count of `name`
      is replaced by the clamped new one. */
  lemma TotalAfterAdjust(m: Selection, name: string, delta: int)
    requires Sparse(m)
    ensures Total(Adjust(m, name, delta)) == Total(m) - Count(m, name) + Max(0, Count(m, name) + delta)
  {
    var r := Adjust(m, name, delta);
    SumOfReplaced(m, r, name);
  }

  /** Two maps that agree on every other vehicle differ in sum only by the count of `name`. */
  lemma SumOfReplaced(m: Selection, r: Selection, name: string)
    requires UniqueNames(m) && UniqueNames(r) && Others(r, name) == Others(m, name)
    ensures Sum(r) - Count(r, name) == Sum(m) - Count(m, name)
  {
    SumOthers(m, name);
    SumOthers(r, name);
  }

  // ---- getSelectedVehiclesString ----

  /** `${count} x ${name}` */
  function Render(e: Entry): (s: string)
    ensures |s| >= 4
  {
    Decimal.IntText(e.count) + " x " + e.name
  }

  function Renders(m: Selection): (parts: seq<string>)
    ensures |parts| == |m| && forall i :: 0 <= i < |m| ==> parts[i] == Render(m[i])
  {
    seq(|m|, i requires 0 <= i < |m| => Render(m[i]))
  }

  /** `getSelectedVehiclesString()`: "" for no vehicles, else the entries in insertion order
      as "count x name", separated by ", ". */
  function Summary(m: Selection): (s: string)
    ensures s == "" <==> m == []
  {
    if |m| == 0 then "" else Text.Join(Renders(m), ", ")
  }

  /** A vehicle added last is rendered last. */
  lemma SummaryAppend(m: Selection, e: Entry)
    requires m != []
    ensures Summary(m + [e]) == Summary(m) + ", " + Render(e)
  {
    assert Renders(m + [e]) == Renders(m) + [Render(e)];
    Text.JoinAppend(Renders(m), Render(e), ", ");
  }

  /** Choosing a vehicle that had no entry adds its "count x name" at the end of the summary. */
  lemma SummaryOfNewVehicle(m: Selection, name: string, delta: int)
    requires Sparse(m) && Count(m, name) == 0 && delta > 0
    ensures Summary(Adjust(m, name, delta)) ==
            (if m == [] then "" else Summary(m) + ", ") + Render(Entry(name, delta))
  {
    assert Adjust(m, name, delta) == m + [Entry(name, delta)];
    if m == [] {
      assert m + [Entry(name, delta)] == [Entry(name, delta)];
    } else {
      SummaryAppend(m, Entry(name, delta));
    }
  }

  /** One chosen vehicle: the summary is its rendering alone and the total its count. */
  lemma SingleVehicle(e: Entry)
    ensures Summary([e]) == Render(e)
    ensures Total([e]) == e.count
  {
    assert Renders([e]) == [Render(e)];
    assert [e][1..] == [];
  }

  /** Two units of one vehicle chosen before one of another render in that order. */
  lemma SummaryExample()
    ensures Summary([Entry("Activa 125", 2), Entry("RE Classic 350", 1)]) == "2 x Activa 125, 1 x RE Classic 350"
    ensures Total([Entry("Activa 125", 2), Entry("RE Classic 350", 1)]) == 3
  {
    var a, b := Entry("Activa 125", 2), Entry("RE Classic 350", 1);
    assert [a] + [b] == [a, b];
    SingleVehicle(a);
    SingleVehicle(b);
    SummaryAppend([a], b);
    RenderExamples();
    assert [a, b][1..] == [b];
    assert Sum([a, b]) == 2 + Sum([b]);
  }

  lemma RenderExamples()
    ensures Render(Entry("Activa 125", 2)) == "2 x Activa 125"
    ensures Render(Entry("RE Classic 350", 1)) == "1 x RE Classic 350"
  {
    assert Decimal.IntText(2) == "2" && Decimal.IntText(1) == "1";
  }

  /** Pressing + twice on one vehicle and once on another, from an empty selection. */
  lemma AdjustExample()
    ensures Adjust(Adjust(Adjust([], "Activa 125", 1), "Activa 125", 1), "RE Classic 350", 1) ==
            [Entry("Activa 125", 2), Entry("RE Classic 350", 1)]
  {
    var a1 := Adjust([], "Activa 125", 1);
    assert a1 == [Entry("Activa 125", 1)];
    var a2 := Adjust(a1, "Activa 125", 1);
    assert Count(a1, "Activa 125") == 1;
    assert a2 == [Entry("Activa 125", 2)];
    assert Count(a2, "RE Classic 350") == 0 by {
      assert a2[0].name != "RE Classic 350";
      assert a2[1..] == [];
    }
    assert IndexOf(a2, "RE Classic 350") == -1;
  }
}
