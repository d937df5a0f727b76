/** The bar chart's inputs: walk the conference checkboxes in their fixed
    order and, for every ticked one, append its mean capacity and its name to
    two parallel lists. */
module BarSelection {
  import opened Outcomes

  /** The checkbox order in the sidebar. */
  const ConferenceOrder: seq<string> := [
    "Big Ten", "SEC", "Big 12", "Pac-12", "ACC", "Independent",
    "Mountain West", "American", "C-USA", "Sun Belt", "MAC", "Ohio Valley",
    "Ivy", "SWAC", "MEAC", "Big Sky", "CAA", "Patriot",
    "Southern", "Missouri Valley", "Big South", "Southland", "Pioneer", "Northeast"]

  datatype Toggle = Toggle(name: string, enabled: bool)

  /** Pair each checkbox value with its conference, in sidebar order. */
  function Checkboxes(checked: seq<bool>): (ts: seq<Toggle>)
    requires |checked| == |ConferenceOrder|
  {
    seq(|checked|, i requires 0 <= i < |checked| => Toggle(ConferenceOrder[i], checked[i]))
  }

  /** Reference: the names of the ticked toggles, in toggle order. */
  function EnabledNames(ts: seq<Toggle>): seq<string>
  {
    if |ts| == 0 then []
    else (if ts[0].enabled then [ts[0].name] else []) + EnabledNames(ts[1..])
  }

  /** Every ticked toggle names a key of `means`. */
  predicate AllEnabledPresent(ts: seq<Toggle>, means: map<string, real>)
  {
    forall i :: 0 <= i < |ts| && ts[i].enabled ==> ts[i].name in means
  }

  /** Toggle `i` is the first ticked toggle whose name is missing from `means`. */
  predicate FirstMissing(ts: seq<Toggle>, means: map<string, real>, i: int)
  {
    && 0 <= i < |ts|
    && ts[i].enabled && ts[i].name !in means
    && AllEnabledPresent(ts[..i], means)
  }

  datatype Bars = Bars(capacities: seq<real>, names: seq<string>)

  /** Selecting over a concatenation selects over each part in turn: the
      selection keeps the toggle order. */
  lemma {:induction false} EnabledNamesAppend(a: seq<Toggle>, b: seq<Toggle>)
    ensures EnabledNames(a + b) == EnabledNames(a) + EnabledNames(b)
  {
    if |a| == 0 {
      assert a + b == b;
    } else {
      assert (a + b)[1..] == a[1..] + b;
      EnabledNamesAppend(a[1..], b);
    }
  }

  /** A name is selected exactly when some ticked toggle carries it; an
      unticked conference never appears. */
  lemma {:induction false} EnabledNamesMembership(ts: seq<Toggle>, n: string)
    ensures n in EnabledNames(ts) <==> exists i :: 0 <= i < |ts| && ts[i] == Toggle(n, true)
  {
    if |ts| > 0 {
      EnabledNamesMembership(ts[1..], n);
      if exists i :: 0 <= i < |ts[1..]| && ts[1..][i] == Toggle(n, true) {
        var i :| 0 <= i < |ts[1..]| && ts[1..][i] == Toggle(n, true);
        assert ts[i + 1] == Toggle(n, true);
      }
      if exists i :: 0 <= i < |ts| && ts[i] == Toggle(n, true) {
        var i :| 0 <= i < |ts| && ts[i] == Toggle(n, true);
        if i > 0 {
          assert ts[1..][i - 1] == Toggle(n, true);
        }
      }
    }
  }

  /** Build the two parallel lists. A ticked conference that is not a key of
      `means` stops the walk with that conference's name as the error. */
  method SelectBars(ts: seq<Toggle>, means: map<string, real>) returns (out: Result<Bars>)
    ensures out.Ok? <==> AllEnabledPresent(ts, means)
    ensures out.Ok? ==> out.value.names == EnabledNames(ts)
    ensures out.Ok? ==> |out.value.capacities| == |out.value.names|
    ensures out.Ok? ==> forall j :: 0 <= j < |out.value.names| ==>
      out.value.names[j] in means && out.value.capacities[j] == means[out.value.names[j]]
    ensures out.Err? ==> exists i :: FirstMissing(ts, means, i) && out.error == MissingConference(ts[i].name)
  {
    var capacities: seq<real> := [];
    var names: seq<string> := [];
    var i := 0;
    while i < |ts|
      invariant 0 <= i <= |ts|
      invariant AllEnabledPresent(ts[..i], means)
      invariant names == EnabledNames(ts[..i])
      invariant |capacities| == |names|
      invariant forall j :: 0 <= j < |names| ==> names[j] in means && capacities[j] == means[names[j]]
    {
      var t := ts[i];
      if t.enabled {
        if t.name !in means {
          assert FirstMissing(ts, means, i);
          return Err(MissingConference(t.name));
        }
        capacities := capacities + [means[t.name]];
        names := names + [t.name];
      }
      assert ts[..i + 1] == ts[..i] + [t];
      EnabledNamesAppend(ts[..i], [t]);
      i := i + 1;
    }
    assert ts[..i] == ts;
    out := Ok(Bars(capacities, names));
  }

  /** With every checkbox ticked (the sidebar's default) and every conference
      known, the bars list all 24 conferences in sidebar order. */
  lemma {:induction false} AllTickedSelectsEveryConference(checked: seq<bool>)
    requires |checked| == |ConferenceOrder|
    requires forall i :: 0 <= i < |checked| ==> checked[i]
    ensures EnabledNames(Checkboxes(checked)) == ConferenceOrder
  {
    AllEnabledKeepsNames(Checkboxes(checked));
    assert NamesOf(Checkboxes(checked)) == ConferenceOrder;
  }

  function NamesOf(ts: seq<Toggle>): seq<string>
  {
    seq(|ts|, i requires 0 <= i < |ts| => ts[i].name)
  }

  lemma {:induction false} AllEnabledKeepsNames(ts: seq<Toggle>)
    requires forall i :: 0 <= i < |ts| ==> ts[i].enabled
    ensures EnabledNames(ts) == NamesOf(ts)
  {
    if |ts| > 0 {
      AllEnabledKeepsNames(ts[1..]);
      assert NamesOf(ts) == [ts[0].name] + NamesOf(ts[1..]);
    }
  }
}
