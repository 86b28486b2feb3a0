/** `utils/generate_map.py`: reads the LGA GeoJSON features, names each
    feature's state and local government area (LGA), and groups the LGAs
    under their state. The parsed JSON is the input and the grouped map is
    the output; reading and writing the files is not modelled. */
module GenerateMap {
  import opened Wrappers
  import opened PyValue
  import opened PyStr

  /** `props.get(k0) or props.get(k1) or ... or default`: the value of the
      first key whose value is truthy, else `default`. */
  function FirstTruthy(props: map<string, Value>, keys: seq<string>, default: Value): (r: Value)
    ensures (forall i :: 0 <= i < |keys| ==> !Truthy(Get(props, keys[i], Null))) ==> r == default
    ensures forall i :: (0 <= i < |keys| && Truthy(Get(props, keys[i], Null))
      && (forall j :: 0 <= j < i ==> !Truthy(Get(props, keys[j], Null)))) ==> r == props[keys[i]]
  {
    if |keys| == 0 then default
    else
      assert forall i :: 1 <= i < |keys| ==> keys[i] == keys[1..][i - 1];
      Or(Get(props, keys[0], Null), FirstTruthy(props, keys[1..], default))
  }

  /** A name chosen by falling back along `keys` to `unknown`, then stripped.
      `.get` on properties that are not a dict, and `.strip` on a chosen
      value that is not a string, raise AttributeError. */
  function ChosenName(props: Value, keys: seq<string>, unknown: string): (r: Result<string, PyError>)
    ensures !props.Dict? ==> r == Err(AttributeError)
    ensures props.Dict? ==> var v := FirstTruthy(props.fields, keys, Str(unknown));
      && (v.Str? ==> r == Ok(Strip(v.s)))
      && (!v.Str? ==> r == Err(AttributeError))
  {
    if !props.Dict? then Err(AttributeError)
    else
      var v := FirstTruthy(props.fields, keys, Str(unknown));
      if v.Str? then Ok(Strip(v.s)) else Err(AttributeError)
  }

  const StateKeys: seq<string> := ["STE_NAME21", "STATE_NAME"]
  const LgaKeys: seq<string> := ["LGA_NAME24", "LGA_NAME", "NAME"]

  /** The state and LGA named by one feature: `feature['properties']`, then
      the two fallback chains, then the two strips. */
  function FeatureNames(feature: Value): (r: Result<(string, string), PyError>)
    ensures Subscript(feature, "properties").Err? ==> r.Err? && r.error == Subscript(feature, "properties").error
    ensures r.Ok? ==> feature.Dict? && "properties" in feature.fields && feature.fields["properties"].Dict?
    ensures feature.Dict? && "properties" in feature.fields ==>
      var state := ChosenName(feature.fields["properties"], StateKeys, "UNKNOWN_STATE");
      var lga := ChosenName(feature.fields["properties"], LgaKeys, "UNKNOWN_LGA");
      && (r.Err? <==> state.Err? || lga.Err?)
      && (state.Err? ==> r == Err(state.error))
      && (state.Ok? && lga.Err? ==> r == Err(lga.error))
      && (r.Ok? ==> r.value == (state.value, lga.value))
  {
    var props :- Subscript(feature, "properties");
    var state :- ChosenName(props, StateKeys, "UNKNOWN_STATE");
    var lga :- ChosenName(props, LgaKeys, "UNKNOWN_LGA");
    Ok((state, lga))
  }

  /** The names of every feature, or the exception the first bad feature
      raises (which ends the script before anything is written). */
  function AllNames(features: seq<Value>): (r: Result<seq<(string, string)>, PyError>)
    ensures r.Ok? ==> |r.value| == |features|
    ensures r.Ok? ==> forall i :: 0 <= i < |features| ==> FeatureNames(features[i]) == Ok(r.value[i])
    ensures r.Err? <==> exists i :: 0 <= i < |features| && FeatureNames(features[i]).Err?
    ensures r.Err? ==> exists i ::
      && 0 <= i < |features| && FeatureNames(features[i]) == Err(r.error)
      && (forall j :: 0 <= j < i ==> FeatureNames(features[j]).Ok?)
  {
    var rs := seq(|features|, i requires 0 <= i < |features| => FeatureNames(features[i]));
    assert forall i :: 0 <= i < |features| ==> rs[i] == FeatureNames(features[i]);
    Collect(rs)
  }

  /** `for feature in data['features']`: a list yields its items; an empty
      string or dict yields nothing; a non-empty string or dict yields
      strings, which the `['properties']` lookup rejects with TypeError; any
      other value is not iterable. */
  function FeatureList(data: Value): (r: Result<seq<Value>, PyError>)
    ensures r.Ok? ==> data.Dict? && "features" in data.fields
    ensures data.Dict? && "features" in data.fields && data.fields["features"].List? ==>
      r == Ok(data.fields["features"].items)
  {
    var features :- Subscript(data, "features");
    match features
    case List(xs) => Ok(xs)
    case Str(s) => if |s| == 0 then Ok([]) else Err(TypeError)
    case Dict(m) => if |m| == 0 then Ok([]) else Err(TypeError)
    case _ => Err(TypeError)
  }

  /** One entry of the output dict: a state and its LGAs. */
  datatype Group = Group(state: string, lgas: seq<string>)

  /** No element occurs twice. */
  predicate Distinct(xs: seq<string>) {
    forall i, j :: 0 <= i < j < |xs| ==> xs[i] != xs[j]
  }

  /** The elements of `xs` that occur nowhere before, in order: each
      element once, at its first appearance. */
  function Firsts(xs: seq<string>): (r: seq<string>)
    decreases |xs|
  {
    if |xs| == 0 then []
    else
      var init := xs[..|xs| - 1];
      Firsts(init) + (if xs[|xs| - 1] in init then [] else [xs[|xs| - 1]])
  }

  /** `Firsts` keeps every element and nothing else. */
  lemma {:induction false} FirstsMembers(xs: seq<string>)
    ensures forall x :: x in Firsts(xs) <==> x in xs
    decreases |xs|
  {
    if |xs| > 0 {
      var init := xs[..|xs| - 1];
      FirstsMembers(init);
      assert xs == init + [xs[|xs| - 1]];
    }
  }

  /** `Firsts` keeps each element once. */
  lemma {:induction false} FirstsDistinct(xs: seq<string>)
    ensures Distinct(Firsts(xs))
    decreases |xs|
  {
    if |xs| > 0 {
      var init := xs[..|xs| - 1];
      FirstsDistinct(init);
      FirstsMembers(init);
    }
  }

  /** `Firsts` of a longer list only adds the new element, when it is new. */
  lemma FirstsSnoc(xs: seq<string>, x: string)
    ensures Firsts(xs + [x]) == Firsts(xs) + (if x in xs then [] else [x])
  {
    assert (xs + [x])[..|xs|] == xs;
  }

  /** Position of the first occurrence of `x` in `xs`. */
  function FirstIndex(xs: seq<string>, x: string): (k: nat)
    requires x in xs
    ensures k < |xs| && xs[k] == x && x !in xs[..k]
  {
    if xs[0] == x then 0
    else
      var k := FirstIndex(xs[1..], x);
      assert xs[..k + 1] == [xs[0]] + xs[1..][..k];
      k + 1
  }

  /** `Firsts` lists the elements in the order they first appear. */
  lemma {:induction false} FirstsOrder(xs: seq<string>)
    ensures FirstsMembersOf(xs)
    ensures forall i, j :: 0 <= i < j < |Firsts(xs)| ==>
      FirstIndex(xs, Firsts(xs)[i]) < FirstIndex(xs, Firsts(xs)[j])
    decreases |xs|
  {
    FirstsMembers(xs);
    if |xs| > 0 {
      var init, x := xs[..|xs| - 1], xs[|xs| - 1];
      assert xs == init + [x];
      FirstsOrder(init);
      FirstsMembers(init);
      var f := Firsts(xs);
      forall i, j | 0 <= i < j < |f| ensures FirstIndex(xs, f[i]) < FirstIndex(xs, f[j]) {
        FirstIndexPrefix(init, x, f[i]);
        if j < |Firsts(init)| {
          FirstIndexPrefix(init, x, f[j]);
        } else {
          assert f[j] == x && x !in init;
          FirstIndexLast(init, x);
        }
      }
    }
  }

  /** Every element of `Firsts(xs)` occurs in `xs`, so its first index is
      defined. */
  ghost predicate FirstsMembersOf(xs: seq<string>) {
    forall i :: 0 <= i < |Firsts(xs)| ==> Firsts(xs)[i] in xs
  }

  lemma FirstIndexPrefix(init: seq<string>, x: string, y: string)
    requires y in init
    ensures FirstIndex(init + [x], y) == FirstIndex(init, y)
  {
    var k := FirstIndex(init, y);
    assert (init + [x])[..k] == init[..k];
    FirstIndexUnique(init + [x], y, k);
  }

  lemma FirstIndexLast(init: seq<string>, x: string)
    requires x !in init
    ensures FirstIndex(init + [x], x) == |init|
  {
    assert (init + [x])[..|init|] == init;
    FirstIndexUnique(init + [x], x, |init|);
  }

  /** The first occurrence is the one with no earlier occurrence. */
  lemma {:induction false} FirstIndexUnique(xs: seq<string>, x: string, k: nat)
    requires k < |xs| && xs[k] == x && x !in xs[..k]
    ensures FirstIndex(xs, x) == k
  {
  }

  /** The states of the pairs, in order, with repeats. */
  function StatesOf(pairs: seq<(string, string)>): (r: seq<string>)
    ensures |r| == |pairs| && forall i :: 0 <= i < |pairs| ==> r[i] == pairs[i].0
  {
    seq(|pairs|, i requires 0 <= i < |pairs| => pairs[i].0)
  }

  /** The LGAs paired with `state`, in order, with repeats. */
  function LgasOf(pairs: seq<(string, string)>, state: string): (r: seq<string>)
    ensures forall l :: l in r <==> (state, l) in pairs
    decreases |pairs|
  {
    if |pairs| == 0 then []
    else
      var init := pairs[..|pairs| - 1];
      var (s, l) := pairs[|pairs| - 1];
      assert pairs == init + [(s, l)];
      LgasOf(init, state) + (if s == state then [l] else [])
  }

  /** What the script writes, defined without its loop: one entry per state
      in order of first appearance, holding that state's LGAs in order of
      first appearance. */
  function Grouped(pairs: seq<(string, string)>): (r: seq<Group>)
    ensures |r| == |Firsts(StatesOf(pairs))|
  {
    var states := Firsts(StatesOf(pairs));
    seq(|states|, i requires 0 <= i < |states| => Group(states[i], Firsts(LgasOf(pairs, states[i]))))
  }

  /** Where `state` already has an entry. */
  function IndexOf(groups: seq<Group>, state: string): (r: Option<nat>)
    ensures r.Some? ==> r.value < |groups| && groups[r.value].state == state
    ensures r.None? <==> forall k :: 0 <= k < |groups| ==> groups[k].state != state
  {
    if |groups| == 0 then None
    else if groups[|groups| - 1].state == state then Some(|groups| - 1)
    else IndexOf(groups[..|groups| - 1], state)
  }

  /** The loop of lines 15-29 over the named features. */
  method GroupByState(pairs: seq<(string, string)>) returns (groups: seq<Group>)
    ensures groups == Grouped(pairs)
  {
    groups := [];
    for n := 0 to |pairs|
      invariant groups == Grouped(pairs[..n])
    {
      assert pairs[..n + 1] == pairs[..n] + [pairs[n]];
      groups := AddFeature(groups, pairs[..n], pairs[n].0, pairs[n].1);
    }
    assert pairs[..|pairs|] == pairs;
  }

  /** One turn of the loop: create the state's list when the state is new
      (lines 25-26), and append the LGA when the list lacks it (lines 28-29). */
  method AddFeature(groups: seq<Group>, ghost seen: seq<(string, string)>, state: string, lga: string)
    returns (groups': seq<Group>)
    requires groups == Grouped(seen)
    ensures groups' == Grouped(seen + [(state, lga)])
  {
    var k := IndexOf(groups, state);
    groups' := groups;
    if k.None? {
      groups' := groups' + [Group(state, [])];
      k := Some(|groups'| - 1);
    }
    var g := groups'[k.value];
    if lga !in g.lgas {
      groups' := groups'[k.value := g.(lgas := g.lgas + [lga])];
    }
    if IndexOf(groups, state).None? {
      GroupedNewState(seen, state, lga);
      assert k.value == |groups| && g == Group(state, []);
      assert |groups'| == |groups| + 1 && groups'[|groups|] == Group(state, [lga]);
      assert forall i :: 0 <= i < |groups| ==> groups'[i] == groups[i];
      assert groups' == groups + [Group(state, [lga])];
    } else {
      GroupedKnownState(seen, state, lga, k.value);
    }
  }

  /** A feature of a state not seen before adds an entry at the end. */
  lemma GroupedNewState(pairs: seq<(string, string)>, state: string, lga: string)
    requires forall k :: 0 <= k < |Grouped(pairs)| ==> Grouped(pairs)[k].state != state
    ensures Grouped(pairs + [(state, lga)]) == Grouped(pairs) + [Group(state, [lga])]
  {
    var p' := pairs + [(state, lga)];
    var sts := Firsts(StatesOf(pairs));
    var g, g' := Grouped(pairs), Grouped(p');
    UnseenState(pairs, state);
    assert Firsts(StatesOf(p')) == sts + [state] by {
      StatesSnoc(pairs, state, lga);
    }
    forall i | 0 <= i < |g| ensures g'[i] == g[i] {
      GroupedAt(pairs, i);
      GroupedAt(p', i);
      var st := sts[i];
      assert Firsts(StatesOf(p'))[i] == st;
      assert st != state;
      LgasSnoc(pairs, state, lga, st);
      assert LgasOf(pairs, st) + [] == LgasOf(pairs, st);
    }
    assert g'[|g|] == Group(state, [lga]) by {
      GroupedAt(p', |g|);
      LgasSnoc(pairs, state, lga, state);
      FirstsSnoc([], lga);
      assert [] + [lga] == [lga];
    }
    assert g' == g + [Group(state, [lga])];
  }

  lemma GroupedAt(pairs: seq<(string, string)>, i: nat)
    requires i < |Grouped(pairs)|
    ensures var st := Firsts(StatesOf(pairs))[i];
      Grouped(pairs)[i] == Group(st, Firsts(LgasOf(pairs, st)))
  {
  }

  /** A state without an entry has no feature. */
  lemma UnseenState(pairs: seq<(string, string)>, state: string)
    requires forall k :: 0 <= k < |Grouped(pairs)| ==> Grouped(pairs)[k].state != state
    ensures state !in StatesOf(pairs) && LgasOf(pairs, state) == []
  {
    var sts := StatesOf(pairs);
    forall i | 0 <= i < |Firsts(sts)| ensures Firsts(sts)[i] != state {
      GroupedAt(pairs, i);
    }
    FirstsMembers(sts);
    forall m | 0 <= m < |pairs| ensures pairs[m].0 != state {
      assert sts[m] == pairs[m].0 && sts[m] in sts;
    }
    LgasOfAbsent(pairs, state);
  }

  /** A state no feature names has no LGAs. */
  lemma {:induction false} LgasOfAbsent(pairs: seq<(string, string)>, state: string)
    requires forall m :: 0 <= m < |pairs| ==> pairs[m].0 != state
    ensures LgasOf(pairs, state) == []
    decreases |pairs|
  {
    if |pairs| > 0 {
      LgasOfAbsent(pairs[..|pairs| - 1], state);
    }
  }

  /** A feature of a state already seen updates only that state's entry,
      appending the LGA when it is new there. */
  lemma GroupedKnownState(pairs: seq<(string, string)>, state: string, lga: string, k: nat)
    requires k < |Grouped(pairs)| && Grouped(pairs)[k].state == state
    ensures var g := Grouped(pairs)[k];
      Grouped(pairs + [(state, lga)]) ==
        if lga in g.lgas then Grouped(pairs) else Grouped(pairs)[k := g.(lgas := g.lgas + [lga])]
  {
    var g, g' := Grouped(pairs), Grouped(pairs + [(state, lga)]);
    KnownStateOthers(pairs, state, lga, k);
    KnownStateEntry(pairs, state, lga, k);
    if lga in g[k].lgas {
      assert g'[k] == g[k] by {
        assert g[k].lgas + [] == g[k].lgas;
      }
      assert g' == g;
    } else {
      assert g' == g[k := g[k].(lgas := g[k].lgas + [lga])];
    }
  }

  /** A feature of a state already seen leaves the states' order, and
      every other state's entry, as they were. */
  lemma KnownStateOthers(pairs: seq<(string, string)>, state: string, lga: string, k: nat)
    requires k < |Grouped(pairs)| && Grouped(pairs)[k].state == state
    ensures Firsts(StatesOf(pairs + [(state, lga)])) == Firsts(StatesOf(pairs))
    ensures |Grouped(pairs + [(state, lga)])| == |Grouped(pairs)|
    ensures forall i :: 0 <= i < |Grouped(pairs)| && i != k ==> Grouped(pairs + [(state, lga)])[i] == Grouped(pairs)[i]
  {
    var p' := pairs + [(state, lga)];
    var sts := Firsts(StatesOf(pairs));
    var g, g' := Grouped(pairs), Grouped(p');
    assert Firsts(StatesOf(p')) == sts by {
      StatesSnoc(pairs, state, lga);
      FirstsMembers(StatesOf(pairs));
      GroupedAt(pairs, k);
      assert sts[k] in StatesOf(pairs);
    }
    assert Distinct(sts) by {
      FirstsDistinct(StatesOf(pairs));
    }
    GroupedAt(pairs, k);
    forall i | 0 <= i < |g| && i != k ensures g'[i] == g[i] {
      GroupedAt(pairs, i);
      GroupedAt(p', i);
      var st := sts[i];
      assert st != state;
      LgasSnoc(pairs, state, lga, st);
      assert LgasOf(pairs, st) + [] == LgasOf(pairs, st);
    }
  }

  /** A feature of a state already seen adds its LGA to that state's entry
      when the LGA is new there. */
  lemma KnownStateEntry(pairs: seq<(string, string)>, state: string, lga: string, k: nat)
    requires k < |Grouped(pairs)| && Grouped(pairs)[k].state == state
    requires Firsts(StatesOf(pairs + [(state, lga)])) == Firsts(StatesOf(pairs))
    ensures k < |Grouped(pairs + [(state, lga)])|
    ensures Grouped(pairs + [(state, lga)])[k].state == state
    ensures Grouped(pairs + [(state, lga)])[k].lgas
      == Grouped(pairs)[k].lgas + (if lga in Grouped(pairs)[k].lgas then [] else [lga])
  {
    var p' := pairs + [(state, lga)];
    var ls := LgasOf(pairs, state);
    GroupedAt(pairs, k);
    GroupedAt(p', k);
    LgasSnoc(pairs, state, lga, state);
    FirstsSnoc(ls, lga);
    FirstsMembers(ls);
  }

  /** The states of one more feature. */
  lemma StatesSnoc(pairs: seq<(string, string)>, state: string, lga: string)
    ensures StatesOf(pairs + [(state, lga)]) == StatesOf(pairs) + [state]
    ensures Firsts(StatesOf(pairs + [(state, lga)])) ==
      Firsts(StatesOf(pairs)) + (if state in StatesOf(pairs) then [] else [state])
  {
    assert StatesOf(pairs + [(state, lga)]) == StatesOf(pairs) + [state];
    FirstsSnoc(StatesOf(pairs), state);
  }

  /** One more feature adds its LGA to its own state's list only. */
  lemma LgasSnoc(pairs: seq<(string, string)>, state: string, lga: string, t: string)
    ensures LgasOf(pairs + [(state, lga)], t) == LgasOf(pairs, t) + (if t == state then [lga] else [])
  {
    assert (pairs + [(state, lga)])[..|pairs|] == pairs;
  }

  /** `data` through the whole script: the features, their names, and the
      state map as `json.dump` writes it (keys in insertion order). */
  function BuildMap(data: Value): (r: Result<seq<Group>, PyError>)
    ensures r.Ok? ==> exists features, pairs ::
      FeatureList(data) == Ok(features) && AllNames(features) == Ok(pairs) && r.value == Grouped(pairs)
    ensures FeatureList(data).Ok? && AllNames(FeatureList(data).value).Ok? ==>
      r == Ok(Grouped(AllNames(FeatureList(data).value).value))
    ensures FeatureList(data).Err? ==> r == Err(FeatureList(data).error)
    ensures FeatureList(data).Ok? && AllNames(FeatureList(data).value).Err? ==>
      r == Err(AllNames(FeatureList(data).value).error)
  {
    var features :- FeatureList(data);
    var pairs :- AllNames(features);
    Ok(Grouped(pairs))
  }

  /** The map's keys are exactly the states seen, each once. */
  lemma KeysAreStatesSeen(pairs: seq<(string, string)>, state: string)
    ensures (exists i :: 0 <= i < |Grouped(pairs)| && Grouped(pairs)[i].state == state)
      <==> exists m :: 0 <= m < |pairs| && pairs[m].0 == state
    ensures forall i, j :: 0 <= i < j < |Grouped(pairs)| ==> Grouped(pairs)[i].state != Grouped(pairs)[j].state
  {
    var sts := StatesOf(pairs);
    FirstsMembers(sts);
    FirstsDistinct(sts);
    if exists m :: 0 <= m < |pairs| && pairs[m].0 == state {
      var m :| 0 <= m < |pairs| && pairs[m].0 == state;
      assert sts[m] == state;
      assert state in Firsts(sts);
      var i :| 0 <= i < |Firsts(sts)| && Firsts(sts)[i] == state;
      assert Grouped(pairs)[i].state == state;
    }
    if exists i :: 0 <= i < |Grouped(pairs)| && Grouped(pairs)[i].state == state {
      var i :| 0 <= i < |Grouped(pairs)| && Grouped(pairs)[i].state == state;
      assert Firsts(sts)[i] in sts;
    }
  }

  /** An LGA is listed under a state exactly when some feature pairs them,
      and no state's list repeats an LGA. */
  lemma PairsAreListed(pairs: seq<(string, string)>, i: nat, lga: string)
    requires i < |Grouped(pairs)|
    ensures lga in Grouped(pairs)[i].lgas <==> (Grouped(pairs)[i].state, lga) in pairs
    ensures Distinct(Grouped(pairs)[i].lgas)
  {
    var state := Grouped(pairs)[i].state;
    FirstsMembers(LgasOf(pairs, state));
    FirstsDistinct(LgasOf(pairs, state));
  }

  /** Each state's list keeps its LGAs in the order they first appear among
      that state's features. */
  lemma ListsKeepFirstAppearance(pairs: seq<(string, string)>, i: nat)
    requires i < |Grouped(pairs)|
    ensures var g := Grouped(pairs)[i];
      var ls := LgasOf(pairs, g.state);
      FirstsMembersOf(ls) && g.lgas == Firsts(ls) &&
      forall a, b :: 0 <= a < b < |g.lgas| ==> FirstIndex(ls, g.lgas[a]) < FirstIndex(ls, g.lgas[b])
  {
    FirstsOrder(LgasOf(pairs, Grouped(pairs)[i].state));
  }

  /** Every feature's state and LGA appear in the map, the LGA under the
      state. */
  lemma EveryFeatureIsListed(features: seq<Value>, m: nat)
    requires AllNames(features).Ok? && m < |features|
    ensures var pairs := AllNames(features).value;
      var groups := Grouped(pairs);
      FeatureNames(features[m]) == Ok(pairs[m]) &&
      exists i :: 0 <= i < |groups| && groups[i].state == pairs[m].0 && pairs[m].1 in groups[i].lgas
  {
    var pairs := AllNames(features).value;
    KeysAreStatesSeen(pairs, pairs[m].0);
    var i :| 0 <= i < |Grouped(pairs)| && Grouped(pairs)[i].state == pairs[m].0;
    PairsAreListed(pairs, i, pairs[m].1);
  }

  /** A property value of only whitespace is chosen (it is truthy) and then
      stripped to the empty name, so the UNKNOWN default is not used. */
  lemma BlankNameIsNotUnknown(props: map<string, Value>, blank: string)
    requires |blank| > 0 && forall k :: 0 <= k < |blank| ==> IsSpace(blank[k])
    requires Get(props, "STE_NAME21", Null) == Str(blank)
    ensures ChosenName(Dict(props), StateKeys, "UNKNOWN_STATE") == Ok("")
  {
    assert StateKeys[0] == "STE_NAME21";
    var r := Strip(blank);
    var a, b :| 0 <= a <= b <= |blank| && r == blank[a..b]
      && (forall k :: 0 <= k < a ==> IsSpace(blank[k]))
      && (forall k :: b <= k < |blank| ==> IsSpace(blank[k]));
  }

  /** With neither state key truthy, the state is UNKNOWN_STATE. */
  lemma MissingStateIsUnknown(props: map<string, Value>)
    requires !Truthy(Get(props, "STE_NAME21", Null)) && !Truthy(Get(props, "STATE_NAME", Null))
    ensures ChosenName(Dict(props), StateKeys, "UNKNOWN_STATE") == Ok("UNKNOWN_STATE")
  {
    NoStateKeyFallsBack(props, Str("UNKNOWN_STATE"));
    UnknownStateIsStripped();
  }

  lemma NoStateKeyFallsBack(props: map<string, Value>, default: Value)
    requires !Truthy(Get(props, "STE_NAME21", Null)) && !Truthy(Get(props, "STATE_NAME", Null))
    ensures FirstTruthy(props, StateKeys, default) == default
  {
    assert StateKeys[0] == "STE_NAME21" && StateKeys[1] == "STATE_NAME";
  }

  lemma UnknownStateIsStripped()
    ensures Strip("UNKNOWN_STATE") == "UNKNOWN_STATE"
  {
    var u := "UNKNOWN_STATE";
    assert u[0] == 'U' && u[|u| - 1] == 'E';
    StripTrimmed(u);
  }
}
