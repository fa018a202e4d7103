/** The preparation stage: heat-pump groups are expanded into named pumps, cell
    locations become coordinates, and scalar injection values become time series.

    Reading parameter files and creating the dataset directories happen before
    these steps in the same stage; both are I/O and are not part of this model.
 */
module PreparationStage {
  import opened Common
  import opened Dict
  import opened RandomStream
  import opened DataStructures
  import opened Naming
  import opened VaryPerlin
  import opened Vary

  /* ----- the duplicates check ----- */

  type Location = Option<seq<real>>

  /** `are_duplicate_locations_in_heatpumps` is not part of this model. It is taken
      to hold when two pumps stand at the same location; pumps without a location
      take no part in the check. */
  predicate HasDuplicateLocations(locs: seq<Location>) {
    exists i, j :: 0 <= i < j < |locs| && locs[i].Some? && locs[i] == locs[j]
  }

  /** Adding a pump at `x` creates a duplicate exactly when there was one already
      or `x` is taken. */
  lemma DuplicatesAppend(locs: seq<Location>, x: seq<real>)
    ensures HasDuplicateLocations(locs + [Some(x)]) <==> HasDuplicateLocations(locs) || Some(x) in locs
  {
    var l := locs + [Some(x)];
    if HasDuplicateLocations(l) {
      var i, j :| 0 <= i < j < |l| && l[i].Some? && l[i] == l[j];
      if j < |locs| {
        assert locs[i] == l[i] && locs[j] == l[j];
      } else {
        assert locs[i] == Some(x);
      }
    }
    if Some(x) in locs {
      var i :| 0 <= i < |locs| && locs[i] == Some(x);
      assert l[i] == l[|locs|];
    }
    if HasDuplicateLocations(locs) {
      var i, j :| 0 <= i < j < |locs| && locs[i].Some? && locs[i] == locs[j];
      assert l[i] == locs[i] && l[j] == locs[j];
    }
  }

  /** The location of every entry; an entry that is not a single pump has none. */
  function Locations(m: ParameterMap): (locs: seq<Location>)
    ensures |locs| == |m|
    ensures forall i :: 0 <= i < |m| ==> locs[i] == (if m[i].1.value.Pump? then m[i].1.value.pump.location else None)
  {
    seq(|m|, i requires 0 <= i < |m| => if m[i].1.value.Pump? then m[i].1.value.pump.location else None)
  }

  /** A location of three cell indices, each within 0 .. the axis' cell count. */
  predicate InGrid(loc: seq<real>, cells: seq<int>)
    requires |cells| == 3
  {
    |loc| == 3 && forall i :: 0 <= i < 3 ==> 0.0 <= loc[i] <= cells[i] as real
  }

  /** The `while` loop of `generate_heatpumps`: draw a new location for the pump
      until the list of placed pumps plus this one has no duplicate. The loop is
      unbounded in the source; `fuel` bounds the number of redraws. */
  function Redraw(placed: seq<Location>, loc: seq<real>, cells: seq<int>, rng: Stream, fuel: nat)
    : (r: Result<(seq<real>, Stream)>)
    requires |cells| == 3
    ensures r.Err? ==> r.error == RedrawFuelExhausted
    ensures r.Ok? ==> !HasDuplicateLocations(placed + [Some(r.value.0)])
    ensures r.Ok? && |loc| == 3 ==> |r.value.0| == 3
    ensures !HasDuplicateLocations(placed + [Some(loc)]) ==> r == Ok((loc, rng))
    ensures HasDuplicateLocations(placed) ==> r == Err(RedrawFuelExhausted)
    ensures r.Ok? && rng.Valid() && PositiveCells(cells) && InGrid(loc, cells) ==> InGrid(r.value.0, cells)
    decreases fuel
  {
    DuplicatesAppend(placed, loc);
    if !HasDuplicateLocations(placed + [Some(loc)]) then Ok((loc, rng))
    else if fuel == 0 then Err(RedrawFuelExhausted)
    else
      var (loc', rng') := GenerateHeatpumpLocation(cells, rng);
      Redraw(placed, loc', cells, rng', fuel - 1)
  }

  /** When two pumps already share a location, the loop never ends: a new pump
      cannot remove the duplicate, whatever is drawn. */
  lemma RedrawNeverEndsOnDuplicates(placed: seq<Location>, loc: seq<real>, cells: seq<int>, rng: Stream, fuel: nat)
    requires |cells| == 3 && HasDuplicateLocations(placed)
    ensures forall x :: HasDuplicateLocations(placed + [Some(x)])
    ensures Redraw(placed, loc, cells, rng, fuel) == Err(RedrawFuelExhausted)
  {
    forall x ensures HasDuplicateLocations(placed + [Some(x)]) {
      DuplicatesAppend(placed, x);
    }
  }

  /* ----- generate_heatpumps ----- */

  /** `f"{group}_{index}"` for `index` from `from` up to `number - 1`. */
  function GenNames(group: string, from: nat, number: int): (ns: seq<string>)
    ensures |ns| == (if from < number then number - from else 0)
    ensures forall t :: 0 <= t < |ns| ==> ns[t] == GeneratedName(group, from + t)
    decreases number - from
  {
    if from >= number then [] else [GeneratedName(group, from)] + GenNames(group, from + 1, number)
  }

  /** What a generated pump takes from its group: `vary`, both injection values, the
      default distribution, and a drawn location of three cells. */
  predicate GeneratedFrom(e: (string, Parameter), group: Parameter) {
    && group.value.Group?
    && e.1.name == e.0 && e.1.distribution == Uniform && e.1.vary == group.vary
    && e.1.value.Pump? && e.1.value.pump.location.Some? && |e.1.value.pump.location.value| == 3
    && e.1.value.pump.injectionTemp == group.value.group.injectionTemp
    && e.1.value.pump.injectionRate == group.value.group.injectionRate
  }

  /** The names still to generate are distinct, and the dict built so far holds one
      of them only if the original map does too (where it is reported as a clash). */
  predicate Fresh(original: ParameterMap, names: seq<string>, acc: ParameterMap) {
    Distinct(names) && forall x :: x in names && x in Keys(acc) ==> x in Keys(original)
  }

  /** Every key of `acc` is still a key of `out`. */
  predicate KeysKept(acc: ParameterMap, out: ParameterMap) {
    forall k :: k in Keys(acc) ==> k in Keys(out)
  }

  /** No name is both a key of the original map and of `acc`. */
  predicate NoClash(original: ParameterMap, names: seq<string>, acc: ParameterMap) {
    forall x :: x in names ==> !(x in Keys(original) && x in Keys(acc))
  }

  /** `out` is `acc` followed by one pump generated from `group` per name, in order. */
  predicate Appended(acc: ParameterMap, names: seq<string>, out: ParameterMap, group: Parameter) {
    && |out| == |acc| + |names| && out[..|acc|] == acc && Keys(out) == Keys(acc) + names
    && (forall t :: |acc| <= t < |out| ==> GeneratedFrom(out[t], group))
  }

  /** Assigning a key keeps every key there was. */
  lemma PutKeepsKeys(acc: ParameterMap, name: string, entry: Parameter)
    ensures KeysKept(acc, Put(acc, name, entry))
  {
    var acc' := Put(acc, name, entry);
    forall k | k in Keys(acc) ensures k in Keys(acc') {
      if k != name {
        assert Get(acc', k) == Get(acc, k);
      }
    }
  }

  /** The generated entry for `index` with its location. */
  function GroupEntry(group: Parameter, index: nat, loc: seq<real>): (e: (string, Parameter))
    requires group.value.Group?
    ensures |loc| == 3 ==> GeneratedFrom(e, group)
    ensures e.0 == GeneratedName(group.name, index)
  {
    var g := group.value.group;
    var name := GeneratedName(group.name, index);
    (name, Parameter(name, Pump(HeatPump(Some(loc), g.injectionTemp, g.injectionRate)), Uniform, group.vary))
  }

  /** The pumps `index` .. `number - 1` of one group, each checked for a naming clash,
      placed at a drawn location, redrawn while it is taken, and stored under its name. */
  function ExpandGroup(original: ParameterMap, group: Parameter, index: nat, acc: ParameterMap,
                       cells: seq<int>, rng: Stream, fuel: nat)
    : (r: Result<(ParameterMap, Stream)>)
    requires |cells| == 3 && group.value.Group?
    ensures r.Err? ==> r.error.NamingClash? || r.error == RedrawFuelExhausted
    ensures r.Ok? ==> KeysKept(acc, r.value.0)
    ensures r.Ok? ==> NoClash(original, GenNames(group.name, index, group.value.group.number), acc)
    ensures r.Ok? && Fresh(original, GenNames(group.name, index, group.value.group.number), acc) ==>
              && Appended(acc, GenNames(group.name, index, group.value.group.number), r.value.0, group)
              && (index < group.value.group.number || !HasDuplicateLocations(Locations(acc)) ==>
                    !HasDuplicateLocations(Locations(r.value.0)))
    decreases group.value.group.number - index
  {
    var g := group.value.group;
    if index >= g.number then
      assert acc[..|acc|] == acc;
      Ok((acc, rng))
    else
      var name := GeneratedName(group.name, index);
      if Get(original, name).Some? && Get(acc, name).Some? then Err(NamingClash(name))
      else
        var (loc, rng1) := GenerateHeatpumpLocation(cells, rng);
        var placed :- Redraw(Locations(acc), loc, cells, rng1, fuel);
        var entry := GroupEntry(group, index, placed.0);
        var acc' := Put(acc, name, entry.1);
        var r := ExpandGroup(original, group, index + 1, acc', cells, placed.1, fuel);
        if r.Ok? then
          PutKeepsKeys(acc, name, entry.1);
          ClashStep(original, group, index, acc, acc', r.value.0);
          FreshStepGroup(original, group, index, acc, placed.0, r.value.0);
          r
        else
          r
  }

  /** A name of the group is not a clash now if it was neither now nor later. */
  lemma ClashStep(original: ParameterMap, group: Parameter, index: nat, acc: ParameterMap, acc': ParameterMap, out: ParameterMap)
    requires group.value.Group? && index < group.value.group.number
    requires !(Get(original, GeneratedName(group.name, index)).Some? && Get(acc, GeneratedName(group.name, index)).Some?)
    requires KeysKept(acc, acc')
    requires NoClash(original, GenNames(group.name, index + 1, group.value.group.number), acc')
    ensures NoClash(original, GenNames(group.name, index, group.value.group.number), acc)
  {
    var names := GenNames(group.name, index, group.value.group.number);
    var rest := GenNames(group.name, index + 1, group.value.group.number);
    assert names == [GeneratedName(group.name, index)] + rest;
  }

  /** With fresh names, one step appends the pump and keeps the locations apart. */
  lemma FreshStepGroup(original: ParameterMap, group: Parameter, index: nat, acc: ParameterMap, loc: seq<real>, out: ParameterMap)
    requires group.value.Group? && index < group.value.group.number && |loc| == 3
    requires !(Get(original, GeneratedName(group.name, index)).Some? && Get(acc, GeneratedName(group.name, index)).Some?)
    requires !HasDuplicateLocations(Locations(acc) + [Some(loc)])
    requires var e := GroupEntry(group, index, loc);
             var acc' := Put(acc, e.0, e.1);
             var rest := GenNames(group.name, index + 1, group.value.group.number);
             Fresh(original, rest, acc') ==>
               && Appended(acc', rest, out, group)
               && (index + 1 < group.value.group.number || !HasDuplicateLocations(Locations(acc')) ==>
                     !HasDuplicateLocations(Locations(out)))
    ensures Fresh(original, GenNames(group.name, index, group.value.group.number), acc) ==>
              && Appended(acc, GenNames(group.name, index, group.value.group.number), out, group)
              && !HasDuplicateLocations(Locations(out))
  {
    var e := GroupEntry(group, index, loc);
    var name := e.0;
    var acc' := Put(acc, name, e.1);
    var names := GenNames(group.name, index, group.value.group.number);
    var rest := GenNames(group.name, index + 1, group.value.group.number);
    if Fresh(original, names, acc) {
      assert names == [name] + rest;
      DistinctTail(names);
      assert name !in Keys(acc);
      PutNew(acc, name, e.1);
      FreshAfterHead(original, name, rest, acc, acc');
      AppendedHead(acc, e, rest, out, group);
      assert Locations(acc') == Locations(acc) + [Some(loc)];
    }
  }

  /** Putting the first of the fresh names leaves the rest fresh. */
  lemma FreshAfterHead(original: ParameterMap, name: string, rest: seq<string>, acc: ParameterMap, acc': ParameterMap)
    requires Fresh(original, [name] + rest, acc) && Keys(acc') == Keys(acc) + [name]
    ensures Fresh(original, rest, acc')
  {
    var names := [name] + rest;
    assert rest == names[1..];
    DistinctTail(names);
    forall x | x in rest && x in Keys(acc') ensures x in Keys(original) {
      assert x != name;
      assert x in names;
    }
  }

  /** One generated entry in front of the rest is still an append. */
  lemma AppendedHead(acc: ParameterMap, e: (string, Parameter), rest: seq<string>, out: ParameterMap, group: Parameter)
    requires GeneratedFrom(e, group)
    requires Appended(acc + [e], rest, out, group)
    ensures Appended(acc, [e.0] + rest, out, group)
  {
    var acc' := acc + [e];
    assert out[..|acc|] == out[..|acc'|][..|acc|];
    assert out[|acc|] == out[..|acc'|][|acc|];
    KeysConcat(acc, [e]);
    assert Keys(out) == Keys(acc) + [e.0] + rest;
  }

  /** The names a group entry generates; other entries generate none. */
  function GroupNames(p: Parameter): (ns: seq<string>)
    ensures |ns| == (if p.value.Group? && p.value.group.number > 0 then p.value.group.number else 0)
  {
    if p.value.Group? then GenNames(p.name, 0, p.value.group.number) else []
  }

  /** `HeatPumps.number` summed over the groups of `m`. */
  function GroupTotal(m: ParameterMap): nat
    decreases |m|
  {
    if |m| == 0 then 0
    else (if m[0].1.value.Group? && m[0].1.value.group.number > 0 then m[0].1.value.group.number else 0) + GroupTotal(m[1..])
  }

  /** The names the groups of `m` generate, group after group: one per pump requested. */
  function AllGenNames(m: ParameterMap): (ns: seq<string>)
    ensures |ns| == GroupTotal(m)
    decreases |m|
  {
    if |m| == 0 then [] else GroupNames(m[0].1) + AllGenNames(m[1..])
  }

  /** An entry that is neither a heat pump nor a group of them. */
  predicate HasBadEntry(m: ParameterMap) {
    exists i :: 0 <= i < |m| && !m[i].1.value.Pump? && !m[i].1.value.Group?
  }

  /** The entry was generated from its own group of `m`: the group whose generated
      names include the entry's key (`GroupOfNameUnique` shows there is only one). */
  predicate FromItsGroup(e: (string, Parameter), m: ParameterMap) {
    exists i :: 0 <= i < |m| && e.0 in GroupNames(m[i].1) && GeneratedFrom(e, m[i].1)
  }

  /** Every entry from position `from` on was generated from its own group of `m`. */
  predicate GeneratedFromGroups(out: ParameterMap, from: nat, m: ParameterMap) {
    forall t :: from <= t < |out| ==> FromItsGroup(out[t], m)
  }

  /** In a well-formed map a generated name belongs to one group only, so the
      group an entry inherits from is fixed by its key. */
  lemma GroupOfNameUnique(m: ParameterMap, x: string, i: int, j: int)
    requires WellFormedMap(m) && 0 <= i < |m| && 0 <= j < |m|
    requires x in GroupNames(m[i].1) && x in GroupNames(m[j].1)
    ensures i == j
  {
    var ni := GroupNames(m[i].1);
    var nj := GroupNames(m[j].1);
    var t :| 0 <= t < |ni| && ni[t] == x;
    var u :| 0 <= u < |nj| && nj[u] == x;
    assert GeneratedName(m[i].1.name, t) == GeneratedName(m[j].1.name, u);
    GeneratedNameInjective(m[i].1.name, t, m[j].1.name, u);
    assert Keys(m)[i] == m[i].0 && Keys(m)[j] == m[j].0;
  }

  /** The second loop of `generate_heatpumps`: skip single pumps, reject any other
      entry, and expand every group in the order of the map. */
  function ExpandGroups(original: ParameterMap, m: ParameterMap, acc: ParameterMap, cells: seq<int>, rng: Stream, fuel: nat)
    : (r: Result<(ParameterMap, Stream)>)
    requires |cells| == 3
    ensures r.Err? ==> r.error == NotAHeatPumpEntry || r.error.NamingClash? || r.error == RedrawFuelExhausted
    ensures HasBadEntry(m) ==> r.Err?
    ensures r.Ok? ==> KeysKept(acc, r.value.0)
    ensures r.Ok? ==> NoClash(original, AllGenNames(m), acc)
    ensures r.Ok? && Fresh(original, AllGenNames(m), acc) ==>
              && |r.value.0| == |acc| + |AllGenNames(m)| && r.value.0[..|acc|] == acc
              && Keys(r.value.0) == Keys(acc) + AllGenNames(m)
              && GeneratedFromGroups(r.value.0, |acc|, m)
              && (|AllGenNames(m)| > 0 || !HasDuplicateLocations(Locations(acc)) ==> !HasDuplicateLocations(Locations(r.value.0)))
    decreases |m|
  {
    if |m| == 0 then
      assert acc[..|acc|] == acc;
      Ok((acc, rng))
    else
      var p := m[0].1;
      BadEntryStep(m);
      if p.value.Pump? then
        var r := ExpandGroups(original, m[1..], acc, cells, rng, fuel);
        if r.Ok? then
          PumpStep(original, m, acc, r.value.0);
          r
        else
          r
      else if !p.value.Group? then Err(NotAHeatPumpEntry)
      else
        var g :- ExpandGroup(original, p, 0, acc, cells, rng, fuel);
        var r := ExpandGroups(original, m[1..], g.0, cells, g.1, fuel);
        if r.Ok? then
          GroupStep(original, m, acc, g.0, r.value.0);
          r
        else
          r
  }

  lemma BadEntryStep(m: ParameterMap)
    requires |m| > 0
    ensures HasBadEntry(m) <==> (!m[0].1.value.Pump? && !m[0].1.value.Group?) || HasBadEntry(m[1..])
  {
    if HasBadEntry(m[1..]) {
      var i :| 0 <= i < |m[1..]| && !m[1..][i].1.value.Pump? && !m[1..][i].1.value.Group?;
      assert m[i + 1] == m[1..][i];
    }
    if HasBadEntry(m) {
      var i :| 0 <= i < |m| && !m[i].1.value.Pump? && !m[i].1.value.Group?;
      if i > 0 {
        assert m[1..][i - 1] == m[i];
      }
    }
  }

  /** Generated entries of a suffix of `m` were generated from a group of `m`. */
  lemma GeneratedFromTail(out: ParameterMap, from: nat, m: ParameterMap)
    requires |m| > 0 && GeneratedFromGroups(out, from, m[1..])
    ensures GeneratedFromGroups(out, from, m)
  {
    forall t | from <= t < |out| ensures FromItsGroup(out[t], m) {
      assert FromItsGroup(out[t], m[1..]);
      var i :| 0 <= i < |m[1..]| && out[t].0 in GroupNames(m[1..][i].1) && GeneratedFrom(out[t], m[1..][i].1);
      assert m[i + 1] == m[1..][i];
    }
  }

  /** A single pump entry generates nothing and leaves the accumulated map alone. */
  lemma PumpStep(original: ParameterMap, m: ParameterMap, acc: ParameterMap, out: ParameterMap)
    requires |m| > 0 && m[0].1.value.Pump?
    requires NoClash(original, AllGenNames(m[1..]), acc)
    requires Fresh(original, AllGenNames(m[1..]), acc) ==>
               && |out| == |acc| + |AllGenNames(m[1..])| && out[..|acc|] == acc
               && Keys(out) == Keys(acc) + AllGenNames(m[1..])
               && GeneratedFromGroups(out, |acc|, m[1..])
    ensures AllGenNames(m) == AllGenNames(m[1..])
    ensures NoClash(original, AllGenNames(m), acc)
    ensures Fresh(original, AllGenNames(m), acc) ==> GeneratedFromGroups(out, |acc|, m)
  {
    var rest := AllGenNames(m[1..]);
    assert GroupNames(m[0].1) == [];
    assert AllGenNames(m) == rest;
    if Fresh(original, AllGenNames(m), acc) {
      GeneratedFromTail(out, |acc|, m);
    }
  }

  /** Expanding the first group and then the rest gives the expansion of the whole. */
  lemma GroupStep(original: ParameterMap, m: ParameterMap, acc: ParameterMap, g: ParameterMap, out: ParameterMap)
    requires |m| > 0 && m[0].1.value.Group?
    requires KeysKept(acc, g) && KeysKept(g, out)
    requires NoClash(original, GroupNames(m[0].1), acc)
    requires Fresh(original, GroupNames(m[0].1), acc) ==>
               && Appended(acc, GroupNames(m[0].1), g, m[0].1)
               && (0 < m[0].1.value.group.number || !HasDuplicateLocations(Locations(acc)) ==> !HasDuplicateLocations(Locations(g)))
    requires NoClash(original, AllGenNames(m[1..]), g)
    requires Fresh(original, AllGenNames(m[1..]), g) ==>
               && |out| == |g| + |AllGenNames(m[1..])| && out[..|g|] == g
               && Keys(out) == Keys(g) + AllGenNames(m[1..])
               && GeneratedFromGroups(out, |g|, m[1..])
               && (|AllGenNames(m[1..])| > 0 || !HasDuplicateLocations(Locations(g)) ==> !HasDuplicateLocations(Locations(out)))
    ensures KeysKept(acc, out)
    ensures NoClash(original, AllGenNames(m), acc)
    ensures Fresh(original, AllGenNames(m), acc) ==>
              && |out| == |acc| + |AllGenNames(m)| && out[..|acc|] == acc
              && Keys(out) == Keys(acc) + AllGenNames(m)
              && GeneratedFromGroups(out, |acc|, m)
              && (|AllGenNames(m)| > 0 || !HasDuplicateLocations(Locations(acc)) ==> !HasDuplicateLocations(Locations(out)))
  {
    var first := GroupNames(m[0].1);
    var rest := AllGenNames(m[1..]);
    assert AllGenNames(m) == first + rest;
    NoClashConcat(original, first, rest, acc, g);
    if Fresh(original, first + rest, acc) {
      FreshSplit(original, first, rest, acc, g);
      assert Keys(g) == Keys(acc) + first;
      assert Keys(out) == Keys(g) + rest;
      assert out[..|acc|] == out[..|g|][..|acc|];
      ConcatAssoc(Keys(acc), first, rest);
      GeneratedFromConcat(m, acc, g, out);
      if |first| == 0 {
        assert g == g[..|acc|] == acc;
      }
    }
  }

  lemma NoClashConcat(original: ParameterMap, first: seq<string>, rest: seq<string>, acc: ParameterMap, g: ParameterMap)
    requires KeysKept(acc, g) && NoClash(original, first, acc) && NoClash(original, rest, g)
    ensures NoClash(original, first + rest, acc)
  {
    forall x | x in first + rest ensures !(x in Keys(original) && x in Keys(acc)) {
      if x !in first {
        assert x in rest;
      }
    }
  }

  /** Fresh names for two groups in a row stay fresh after the first is appended. */
  lemma FreshSplit(original: ParameterMap, first: seq<string>, rest: seq<string>, acc: ParameterMap, g: ParameterMap)
    requires Fresh(original, first + rest, acc)
    requires Fresh(original, first, acc) ==> Keys(g) == Keys(acc) + first
    ensures Fresh(original, first, acc) && Fresh(original, rest, g)
  {
    DistinctConcat(first, rest);
    forall x | x in rest && x in Keys(g) ensures x in Keys(original) {
      assert x !in first;
      assert x in Keys(acc);
    }
  }

  lemma GeneratedFromConcat(m: ParameterMap, acc: ParameterMap, g: ParameterMap, out: ParameterMap)
    requires |m| > 0 && |acc| <= |g| <= |out| && out[..|g|] == g
    requires Keys(g) == Keys(acc) + GroupNames(m[0].1)
    requires forall t :: |acc| <= t < |g| ==> GeneratedFrom(g[t], m[0].1)
    requires GeneratedFromGroups(out, |g|, m[1..])
    ensures GeneratedFromGroups(out, |acc|, m)
  {
    forall t | |acc| <= t < |out| ensures FromItsGroup(out[t], m) {
      if t < |g| {
        assert out[t] == out[..|g|][t] == g[t];
        assert g[t].0 == Keys(g)[t] == GroupNames(m[0].1)[t - |acc|];
        assert GeneratedFrom(out[t], m[0].1);
      } else {
        assert FromItsGroup(out[t], m[1..]);
        var i :| 0 <= i < |m[1..]| && out[t].0 in GroupNames(m[1..][i].1) && GeneratedFrom(out[t], m[1..][i].1);
        assert m[i + 1] == m[1..][i];
      }
    }
  }

  /* ----- the whole of generate_heatpumps ----- */

  /** The first loop of `generate_heatpumps`: the single pumps, in map order, each
      stored under its own name. */
  function ExplicitEntries(m: ParameterMap): (e: ParameterMap)
    ensures |e| <= |m|
    ensures forall i :: 0 <= i < |e| ==> e[i].1.value.Pump? && e[i].0 == e[i].1.name
    ensures forall i :: 0 <= i < |m| && m[i].1.value.Pump? ==> (m[i].1.name, m[i].1) in e
    ensures forall i :: 0 <= i < |e| ==> e[i].1 in Values(m)
    decreases |m|
  {
    if |m| == 0 then []
    else
      var rest := ExplicitEntries(m[1..]);
      assert forall i :: 0 <= i < |rest| ==> rest[i].1 in Values(m) by {
        forall i | 0 <= i < |rest| ensures rest[i].1 in Values(m) {
          var j :| 0 <= j < |m[1..]| && Values(m[1..])[j] == rest[i].1;
          assert Values(m)[j + 1] == rest[i].1;
        }
      }
      assert forall i :: 1 <= i < |m| && m[i].1.value.Pump? ==> (m[i].1.name, m[i].1) in rest by {
        forall i | 1 <= i < |m| && m[i].1.value.Pump? ensures (m[i].1.name, m[i].1) in rest {
          assert m[1..][i - 1] == m[i];
        }
      }
      if m[0].1.value.Pump? then
        assert Values(m)[0] == m[0].1;
        [(m[0].1.name, m[0].1)] + rest
      else
        rest
  }

  lemma WellFormedTail(m: ParameterMap)
    requires |m| > 0 && WellFormedMap(m)
    ensures WellFormedMap(m[1..]) && m[0].0 !in Keys(m[1..])
  {
    assert Keys(m[1..]) == Keys(m)[1..];
    DistinctTail(Keys(m));
  }

  /** In a well-formed map the single pumps have distinct names, all of them keys of the map. */
  lemma {:induction false} ExplicitKeys(m: ParameterMap)
    requires WellFormedMap(m)
    ensures Distinct(Keys(ExplicitEntries(m)))
    ensures forall k :: k in Keys(ExplicitEntries(m)) ==> k in Keys(m)
    decreases |m|
  {
    if |m| > 0 {
      WellFormedTail(m);
      ExplicitKeys(m[1..]);
      var rest := ExplicitEntries(m[1..]);
      assert Keys(m) == [m[0].0] + Keys(m[1..]);
      if m[0].1.value.Pump? {
        assert ExplicitEntries(m) == [(m[0].0, m[0].1)] + rest;
        ExplicitKeysHead(m, rest);
      } else {
        assert ExplicitEntries(m) == rest;
      }
    }
  }

  /** The step of `ExplicitKeys` for a map that starts with a single pump. */
  lemma ExplicitKeysHead(m: ParameterMap, rest: ParameterMap)
    requires |m| > 0 && m[0].0 !in Keys(m[1..]) && Keys(m) == [m[0].0] + Keys(m[1..])
    requires Distinct(Keys(rest)) && forall k :: k in Keys(rest) ==> k in Keys(m[1..])
    ensures Distinct(Keys([(m[0].0, m[0].1)] + rest))
    ensures forall k :: k in Keys([(m[0].0, m[0].1)] + rest) ==> k in Keys(m)
  {
    var head := [(m[0].0, m[0].1)];
    KeysConcat(head, rest);
    assert Keys(head) == [m[0].0];
    DistinctConcat(Keys(head), Keys(rest));
  }

  /** The generated name `x` comes from some group of `m`. */
  ghost predicate GeneratedBy(x: string, m: ParameterMap) {
    exists i: nat, j: nat :: i < |m| && m[i].1.value.Group? && x == GeneratedName(m[i].1.name, j)
  }

  lemma {:induction false} AllGenNamesMember(m: ParameterMap, x: string)
    requires x in AllGenNames(m)
    ensures GeneratedBy(x, m)
    decreases |m|
  {
    var first := GroupNames(m[0].1);
    if x in first {
      var t :| 0 <= t < |first| && first[t] == x;
      assert x == GeneratedName(m[0].1.name, t);
    } else {
      assert x in AllGenNames(m[1..]);
      AllGenNamesMember(m[1..], x);
      var i: nat, j: nat :| i < |m[1..]| && m[1..][i].1.value.Group? && x == GeneratedName(m[1..][i].1.name, j);
      assert m[i + 1] == m[1..][i];
    }
  }

  lemma GenNamesDistinct(group: string, from: nat, number: int)
    ensures Distinct(GenNames(group, from, number))
  {
    var ns := GenNames(group, from, number);
    forall s, t | 0 <= s < t < |ns| ensures ns[s] != ns[t] {
      GeneratedNamesDiffer(group, from + s, group, from + t);
    }
  }

  /** In a well-formed map no two generated pumps get the same name. */
  lemma {:induction false} AllGenNamesDistinct(m: ParameterMap)
    requires WellFormedMap(m)
    ensures Distinct(AllGenNames(m))
    decreases |m|
  {
    if |m| > 0 {
      WellFormedTail(m);
      AllGenNamesDistinct(m[1..]);
      var p := m[0].1;
      var first := GroupNames(p);
      var rest := AllGenNames(m[1..]);
      if p.value.Group? {
        GenNamesDistinct(p.name, 0, p.value.group.number);
      }
      forall x | x in first ensures x !in rest {
        var t :| 0 <= t < |first| && first[t] == x;
        assert x == GeneratedName(p.name, t);
        forall y | y in rest ensures x != y {
          AllGenNamesMember(m[1..], y);
          var i: nat, j: nat :| i < |m[1..]| && m[1..][i].1.value.Group? && y == GeneratedName(m[1..][i].1.name, j);
          assert m[1..][i] == m[i + 1];
          assert Keys(m)[0] != Keys(m)[i + 1];
          GeneratedNamesDiffer(p.name, t, m[i + 1].1.name, j);
        }
      }
      DistinctConcat(first, rest);
    }
  }

  /** The single pumps followed by the generated ones form a well-formed map of pumps. */
  lemma ExpandedWellFormed(e: ParameterMap, all: seq<string>, out: ParameterMap, m: ParameterMap)
    requires forall i :: 0 <= i < |e| ==> e[i].1.value.Pump? && e[i].0 == e[i].1.name
    requires Distinct(Keys(e)) && Distinct(all) && forall x :: x in all ==> x !in Keys(e)
    requires |out| == |e| + |all| && out[..|e|] == e && Keys(out) == Keys(e) + all
    requires GeneratedFromGroups(out, |e|, m)
    ensures WellFormedMap(out)
    ensures forall i :: 0 <= i < |out| ==> out[i].1.value.Pump?
  {
    DistinctConcat(Keys(e), all);
    forall i | 0 <= i < |out| ensures out[i].1.value.Pump? && out[i].1.name == out[i].0 {
      if i < |e| {
        assert out[i] == out[..|e|][i] == e[i];
      } else {
        assert FromItsGroup(out[i], m);
      }
    }
  }

  /** `generate_heatpumps`: the single pumps first, then every group expanded into
      pumps named `<group>_0`, `<group>_1`, ..., and the groups themselves dropped. */
  function GenerateHeatpumps(state: State, fuel: nat): (r: Result<State>)
    requires |state.general.numberCells| == 3 && WellFormedMap(state.heatpumps)
    ensures r.Err? ==> r.error == NotAHeatPumpEntry || r.error.NamingClash? || r.error == RedrawFuelExhausted
    ensures HasBadEntry(state.heatpumps) ==> r.Err?
    ensures r.Ok? ==> r.value.general == state.general && r.value.hydro == state.hydro && r.value.datapoints == state.datapoints
    ensures r.Ok? ==> WellFormedMap(r.value.heatpumps)
    ensures r.Ok? ==> forall i :: 0 <= i < |r.value.heatpumps| ==> r.value.heatpumps[i].1.value.Pump?
    ensures r.Ok? ==>
              var e := ExplicitEntries(state.heatpumps);
              && |r.value.heatpumps| == |e| + GroupTotal(state.heatpumps)
              && r.value.heatpumps[..|e|] == e
              && Keys(r.value.heatpumps) == Keys(e) + AllGenNames(state.heatpumps)
              && GeneratedFromGroups(r.value.heatpumps, |e|, state.heatpumps)
    ensures r.Ok? ==> forall x :: x in AllGenNames(state.heatpumps) ==> x !in Keys(ExplicitEntries(state.heatpumps))
    ensures r.Ok? && (GroupTotal(state.heatpumps) > 0 || !HasDuplicateLocations(Locations(ExplicitEntries(state.heatpumps)))) ==>
              !HasDuplicateLocations(Locations(r.value.heatpumps))
  {
    var m := state.heatpumps;
    var e := ExplicitEntries(m);
    ExplicitKeys(m);
    assert [] + e == e;
    UnionFresh([], e);
    AllGenNamesDistinct(m);
    assert Fresh(m, AllGenNames(m), e);
    var g :- ExpandGroups(m, m, Union([], e), state.general.numberCells, state.rng, fuel);
    ExpandedWellFormed(e, AllGenNames(m), g.0, m);
    Ok(State(state.general, state.hydro, g.0, state.datapoints, g.1))
  }

  /** The single pumps of a map without duplicates have none either. */
  lemma NoDuplicatesInPrefix(e: ParameterMap, out: ParameterMap)
    requires |e| <= |out| && out[..|e|] == e && !HasDuplicateLocations(Locations(out))
    ensures !HasDuplicateLocations(Locations(e))
  {
    forall i, j | 0 <= i < j < |e| && Locations(e)[i].Some? ensures Locations(e)[i] != Locations(e)[j] {
      assert out[i] == out[..|e|][i] == e[i];
      assert out[j] == out[..|e|][j] == e[j];
      assert Locations(out)[i] != Locations(out)[j];
    }
  }

  /** Two single pumps at the same cell and at least one group to expand: the
      redraw loop cannot end, so no number of redraws succeeds. */
  lemma DuplicateSinglePumpsBlockGroups(state: State, fuel: nat)
    requires |state.general.numberCells| == 3 && WellFormedMap(state.heatpumps)
    ensures GroupTotal(state.heatpumps) > 0 && HasDuplicateLocations(Locations(ExplicitEntries(state.heatpumps))) ==>
              GenerateHeatpumps(state, fuel).Err?
  {
    var r := GenerateHeatpumps(state, fuel);
    if r.Ok? && GroupTotal(state.heatpumps) > 0 {
      NoDuplicatesInPrefix(ExplicitEntries(state.heatpumps), r.value.heatpumps);
    }
  }

  /* ----- calculate_hp_coordinates ----- */

  /** The pump entry with its cell location replaced by the coordinates of the cell's centre. */
  function MoveToCentre(e: (string, Parameter), res: real): (r: (string, Parameter))
    requires e.1.value.Pump?
    ensures r.0 == e.0 && r.1.name == e.1.name && r.1.distribution == e.1.distribution && r.1.vary == e.1.vary
    ensures r.1.value.Pump?
    ensures r.1.value.pump.injectionTemp == e.1.value.pump.injectionTemp
    ensures r.1.value.pump.injectionRate == e.1.value.pump.injectionRate
    ensures r.1.value.pump.location.Some? <==> e.1.value.pump.location.Some?
    ensures e.1.value.pump.location.Some? ==>
              var before := e.1.value.pump.location.value;
              var after := r.1.value.pump.location.value;
              |after| == |before| && forall k :: 0 <= k < |before| ==> after[k] == CellCentre(before[k], res)
  {
    var hp := e.1.value.pump;
    var loc := if hp.location.Some? then Some(ToCoordinates(hp.location.value, res)) else None;
    (e.0, Parameter(e.1.name, Pump(HeatPump(loc, hp.injectionTemp, hp.injectionRate)), e.1.distribution, e.1.vary))
  }

  /** `calculate_hp_coordinates`: every entry must be a single pump; each location is
      moved from its 1-based cell to the centre of that cell, and a missing location
      stays missing. */
  function CalculateHpCoordinates(m: ParameterMap, res: real): (r: Result<ParameterMap>)
    ensures r.Err? <==> exists i :: 0 <= i < |m| && !m[i].1.value.Pump?
    ensures r.Err? ==> r.error == NotAHeatPump
    ensures r.Ok? ==> |r.value| == |m| && forall i :: 0 <= i < |m| ==> m[i].1.value.Pump? && r.value[i] == MoveToCentre(m[i], res)
    decreases |m|
  {
    if |m| == 0 then Ok([])
    else if !m[0].1.value.Pump? then Err(NotAHeatPump)
    else
      var rest := CalculateHpCoordinates(m[1..], res);
      assert (exists i :: 0 <= i < |m| && !m[i].1.value.Pump?) <==> (exists i :: 0 <= i < |m[1..]| && !m[1..][i].1.value.Pump?) by {
        if exists i :: 0 <= i < |m| && !m[i].1.value.Pump? {
          var i :| 0 <= i < |m| && !m[i].1.value.Pump?;
          assert m[1..][i - 1] == m[i];
        }
        if exists i :: 0 <= i < |m[1..]| && !m[1..][i].1.value.Pump? {
          var i :| 0 <= i < |m[1..]| && !m[1..][i].1.value.Pump?;
          assert m[i + 1] == m[1..][i];
        }
      }
      match rest
      case Err(f) => Err(f)
      case Ok(moved) =>
        var out := [MoveToCentre(m[0], res)] + moved;
        assert forall i :: 1 <= i < |m| ==> m[i] == m[1..][i - 1] && out[i] == moved[i - 1];
        Ok(out)
  }

  /** The cell a coordinate came from can be read back: the conversion is undone by
      `c / res + 0.5`. */
  lemma CellCentreInverse(c: real, res: real)
    requires 0.0 < res
    ensures CellCentre(c, res) / res + 0.5 == c
  {
    var x := c - 0.5;
    assert CellCentre(c, res) == x * res;
    MulDiv(x, res);
  }

  lemma MulDiv(x: real, r: real)
    requires r != 0.0
    ensures x * r / r == x
  {
    var q := x * r / r;
    assert q * r == x * r;
  }

  /** The worked example: cell `[16, 32, 1]` lies at `[15.5, 31.5, 0.5]` with cells of
      size 1 and at `[77.5, 157.5, 2.5]` with cells of size 5. */
  lemma CoordinatesExample()
    ensures ToCoordinates([16.0, 32.0, 1.0], 1.0) == [15.5, 31.5, 0.5]
    ensures ToCoordinates([16.0, 32.0, 1.0], 5.0) == [77.5, 157.5, 2.5]
  {
    var a := ToCoordinates([16.0, 32.0, 1.0], 1.0);
    var b := ToCoordinates([16.0, 32.0, 1.0], 5.0);
    assert a[0] == 15.5 && a[1] == 31.5 && a[2] == 0.5;
    assert b[0] == 77.5 && b[1] == 157.5 && b[2] == 2.5;
  }

  /* ----- handle_time_based_params ----- */

  /** `ValueTimeSeries(values={0: v})`: a single entry at time 0, in the default unit "year". */
  function AsSeries(v: Operational): (s: Operational)
    ensures s.OpSeries?
    ensures v.OpSeries? ==> s == v
    ensures !v.OpSeries? ==> s.series.timeUnit == "year" && |s.series.values| == 1 && s.series.values[0].0 == 0.0
    ensures v.OpRange? ==> s.series.values[0].1 == EntryRange(v.range)
    ensures v.OpValue? ==> s.series.values[0].1 == EntryValue(v.x)
  {
    match v
    case OpSeries(_) => v
    case OpRange(mm) => OpSeries(TimeSeries("year", [(0.0, EntryRange(mm))]))
    case OpValue(x) => OpSeries(TimeSeries("year", [(0.0, EntryValue(x))]))
  }

  /** The pump entry with both injection values as time series. */
  function WrapEntry(e: (string, Parameter)): (r: (string, Parameter))
    requires e.1.value.Pump?
    ensures r.0 == e.0 && r.1.name == e.1.name && r.1.distribution == e.1.distribution && r.1.vary == e.1.vary
    ensures r.1.value.Pump? && r.1.value.pump.location == e.1.value.pump.location
    ensures r.1.value.pump.injectionTemp == AsSeries(e.1.value.pump.injectionTemp)
    ensures r.1.value.pump.injectionRate == AsSeries(e.1.value.pump.injectionRate)
  {
    var hp := e.1.value.pump;
    (e.0, Parameter(e.1.name, Pump(HeatPump(hp.location, AsSeries(hp.injectionTemp), AsSeries(hp.injectionRate))), e.1.distribution, e.1.vary))
  }

  /** `handle_time_based_params`: every entry must be a single pump, and each injection
      value that is not yet a time series becomes one with a single entry. */
  function HandleTimeBasedParams(m: ParameterMap): (r: Result<ParameterMap>)
    ensures r.Err? <==> exists i :: 0 <= i < |m| && !m[i].1.value.Pump?
    ensures r.Err? ==> r.error == NotAHeatPump
    ensures r.Ok? ==> |r.value| == |m| && forall i :: 0 <= i < |m| ==> m[i].1.value.Pump? && r.value[i] == WrapEntry(m[i])
    decreases |m|
  {
    if |m| == 0 then Ok([])
    else if !m[0].1.value.Pump? then Err(NotAHeatPump)
    else
      var rest := HandleTimeBasedParams(m[1..]);
      assert (exists i :: 0 <= i < |m| && !m[i].1.value.Pump?) <==> (exists i :: 0 <= i < |m[1..]| && !m[1..][i].1.value.Pump?) by {
        if exists i :: 0 <= i < |m| && !m[i].1.value.Pump? {
          var i :| 0 <= i < |m| && !m[i].1.value.Pump?;
          assert m[1..][i - 1] == m[i];
        }
        if exists i :: 0 <= i < |m[1..]| && !m[1..][i].1.value.Pump? {
          var i :| 0 <= i < |m[1..]| && !m[1..][i].1.value.Pump?;
          assert m[i + 1] == m[1..][i];
        }
      }
      match rest
      case Err(f) => Err(f)
      case Ok(wrapped) =>
        var out := [WrapEntry(m[0])] + wrapped;
        assert forall i :: 1 <= i < |m| ==> m[i] == m[1..][i - 1] && out[i] == wrapped[i - 1];
        Ok(out)
  }

  /** A second application changes nothing: every value already is a time series. */
  lemma HandleTimeBasedParamsIdempotent(m: ParameterMap)
    requires HandleTimeBasedParams(m).Ok?
    ensures HandleTimeBasedParams(HandleTimeBasedParams(m).value) == HandleTimeBasedParams(m)
  {
    var once := HandleTimeBasedParams(m).value;
    var twice := HandleTimeBasedParams(once);
    assert twice.Ok?;
    assert twice.value == once;
  }

  /* ----- preparation_stage ----- */

  /** `preparation_stage` after the files are read: the groups are expanded, then every
      cell location becomes a coordinate, then the injection values become time series.
      Only the expansion can fail: its output holds single pumps alone, which the
      two later steps accept. */
  function Prepare(state: State, fuel: nat): (r: Result<State>)
    requires |state.general.numberCells| == 3 && WellFormedMap(state.heatpumps)
    ensures r.Err? <==> GenerateHeatpumps(state, fuel).Err?
    ensures r.Err? ==> r.error == GenerateHeatpumps(state, fuel).error
    ensures r.Ok? ==>
              var g := GenerateHeatpumps(state, fuel).value;
              var res := state.general.cellResolution;
              && r.value.general == state.general && r.value.hydro == state.hydro
              && r.value.datapoints == state.datapoints && r.value.rng == g.rng
              && |r.value.heatpumps| == |g.heatpumps|
              && Keys(r.value.heatpumps) == Keys(g.heatpumps)
              && forall i :: 0 <= i < |g.heatpumps| ==>
                   r.value.heatpumps[i] == WrapEntry(MoveToCentre(g.heatpumps[i], res))
    ensures r.Ok? ==> WellFormedMap(r.value.heatpumps)
    ensures r.Ok? ==> forall i :: 0 <= i < |r.value.heatpumps| ==>
              && r.value.heatpumps[i].1.value.Pump?
              && r.value.heatpumps[i].1.value.pump.injectionTemp.OpSeries?
              && r.value.heatpumps[i].1.value.pump.injectionRate.OpSeries?
  {
    match GenerateHeatpumps(state, fuel)
    case Err(f) => Err(f)
    case Ok(g) =>
      Ok(State(g.general, g.hydro, PlaceAndWrap(g.heatpumps, state.general.cellResolution), g.datapoints, g.rng))
  }

  /** The two steps after the expansion, on single pumps alone: neither fails, every
      pump moves to its cell's centre and its values become series, and the keys and
      names stay. */
  function PlaceAndWrap(m: ParameterMap, res: real): (r: ParameterMap)
    requires WellFormedMap(m) && forall i :: 0 <= i < |m| ==> m[i].1.value.Pump?
    ensures |r| == |m| && Keys(r) == Keys(m) && WellFormedMap(r)
    ensures forall i :: 0 <= i < |m| ==> r[i] == WrapEntry(MoveToCentre(m[i], res))
    ensures forall i :: 0 <= i < |r| ==>
              && r[i].1.value.Pump?
              && r[i].1.value.pump.injectionTemp.OpSeries?
              && r[i].1.value.pump.injectionRate.OpSeries?
  {
    var moved := CalculateHpCoordinates(m, res);
    assert moved.Ok?;
    var wrapped := HandleTimeBasedParams(moved.value);
    assert wrapped.Ok?;
    assert Keys(wrapped.value) == Keys(m);
    wrapped.value
  }

  /** A single pump placed at a cell by the configuration ends up at that cell's centre,
      converted once and only once. */
  lemma PrepareMovesExplicitPumpOnce(state: State, fuel: nat, i: nat)
    requires |state.general.numberCells| == 3 && WellFormedMap(state.heatpumps)
    requires Prepare(state, fuel).Ok?
    requires i < |ExplicitEntries(state.heatpumps)|
    requires ExplicitEntries(state.heatpumps)[i].1.value.pump.location.Some?
    ensures Prepare(state, fuel).value.heatpumps[i].1.value.pump.location ==
              Some(ToCoordinates(ExplicitEntries(state.heatpumps)[i].1.value.pump.location.value, state.general.cellResolution))
  {
    var g := GenerateHeatpumps(state, fuel).value;
    var e := ExplicitEntries(state.heatpumps);
    assert g.heatpumps[i] == g.heatpumps[..|e|][i] == e[i];
  }

  /** A single pump named like the first pump of a group: the expansion refuses. */
  lemma NameClashRefused(state: State, fuel: nat)
    requires |state.general.numberCells| == 3
    requires state.heatpumps == [
      ("hp_0", Parameter("hp_0", Pump(HeatPump(Some([16.0, 32.0, 1.0]), OpValue(10.5), OpValue(0.002))), Uniform, Fixed)),
      ("hp", Parameter("hp", Group(HeatPumps(1, OpRange(MinMax(1.0, 2.0)), OpRange(MinMax(1.0, 2.0)))), Uniform, Fixed))]
    ensures Prepare(state, fuel).Err?
  {
    var m := state.heatpumps;
    assert Keys(m) == ["hp_0", "hp"];
    assert WellFormedMap(m);
    assert DecimalString(0) == "0";
    assert GeneratedName("hp", 0) == "hp_0";
    assert GroupNames(m[1].1) == ["hp_0"];
    assert "hp_0" in AllGenNames(m);
    assert "hp_0" in Keys(ExplicitEntries(m));
  }
}
