/** What a report may draw, what its check accepts, and that the two are the
    same (backend/app/agent/blocks.py). */
module ReportCheck {
  import opened Text
  import opened ReportBlocks

  /** A scenario is a replay or a sweep. */
  datatype Scenario = Scenario(key: string, replay: bool)

  /** What of a comparison its blocks refer to: the baseline's scenarios and
      the attempts' positions, as they are written. */
  datatype Comparison = Comparison(scenarios: seq<Scenario>, positions: seq<string>)

  ghost predicate UniqueKeys(doc: Comparison) {
    forall i, j :: 0 <= i < j < |doc.scenarios| ==> doc.scenarios[i].key != doc.scenarios[j].key
  }

  // ---- What is offered ----

  function OneType(kind: Kind, t: string): Snippet { Snippet(kind, [("type", t)]) }

  function ScenarioSnippet(s: Scenario): Snippet {
    Snippet(Chart, [("type", if s.replay then "agentic" else "sweep"), ("scenario", s.key)])
  }

  function DiffSnippet(position: string): Snippet {
    Snippet(Table, [("type", "diff"), ("attempt", position)])
  }

  function ServeSnippet(config: string): Snippet {
    Snippet(Command, [("config", config)])
  }

  function Scenarios(ss: seq<Scenario>): (r: seq<Snippet>)
    ensures |r| == |ss| && forall i :: 0 <= i < |ss| ==> r[i] == ScenarioSnippet(ss[i])
  {
    if ss == [] then [] else [ScenarioSnippet(ss[0])] + Scenarios(ss[1..])
  }

  function Diffs(ps: seq<string>): (r: seq<Snippet>)
    ensures |r| == |ps| && forall i :: 0 <= i < |ps| ==> r[i] == DiffSnippet(ps[i])
  {
    if ps == [] then [] else [DiffSnippet(ps[0])] + Diffs(ps[1..])
  }

  function Serves(ps: seq<string>): (r: seq<Snippet>)
    ensures |r| == |ps| && forall i :: 0 <= i < |ps| ==> r[i] == ServeSnippet(ps[i])
  {
    if ps == [] then [] else [ServeSnippet(ps[0])] + Serves(ps[1..])
  }

  function FixedTables(): seq<Snippet> {
    [OneType(Table, "setup"), OneType(Table, "slo"), OneType(Table, "summary"), OneType(Table, "quality")]
  }

  function Closing(): seq<Snippet> {
    [OneType(Table, "scenarios"), ServeSnippet("baseline")]
  }

  function Offered(doc: Comparison): seq<Snippet> {
    [OneType(Chart, "summary")] + Scenarios(doc.scenarios) + FixedTables()
    + Diffs(doc.positions) + Closing() + Serves(doc.positions)
  }

  /** Every block this comparison can draw. */
  method Available(doc: Comparison) returns (out: seq<Snippet>)
    ensures out == Offered(doc)
  {
    hide OneType, ScenarioSnippet, DiffSnippet, ServeSnippet, FixedTables, Closing, Scenarios, Diffs, Serves, Offered;
    out := [OneType(Chart, "summary")];
    ghost var before := out;
    var i := 0;
    while i < |doc.scenarios|
      invariant 0 <= i <= |doc.scenarios| && out == before + Scenarios(doc.scenarios)[..i]
    {
      out := out + [ScenarioSnippet(doc.scenarios[i])];
      i := i + 1;
    }
    assert out == before + Scenarios(doc.scenarios);
    out := out + FixedTables();
    before := out;
    i := 0;
    while i < |doc.positions|
      invariant 0 <= i <= |doc.positions| && out == before + Diffs(doc.positions)[..i]
    {
      out := out + [DiffSnippet(doc.positions[i])];
      i := i + 1;
    }
    assert out == before + Diffs(doc.positions);
    out := out + Closing();
    before := out;
    i := 0;
    while i < |doc.positions|
      invariant 0 <= i <= |doc.positions| && out == before + Serves(doc.positions)[..i]
    {
      out := out + [ServeSnippet(doc.positions[i])];
      i := i + 1;
    }
    assert out == before + Serves(doc.positions);
    OfferedInParts(doc);
  }

  lemma OfferedInParts(doc: Comparison)
    ensures Offered(doc) == [OneType(Chart, "summary")] + Scenarios(doc.scenarios) + FixedTables()
                            + Diffs(doc.positions) + Closing() + Serves(doc.positions)
  {
  }

  lemma InOffered(doc: Comparison, s: Snippet)
    ensures s in Offered(doc) <==>
              || s == OneType(Chart, "summary")
              || s in Scenarios(doc.scenarios)
              || s in FixedTables()
              || s in Diffs(doc.positions)
              || s in Closing()
              || s in Serves(doc.positions)
  {
    hide OneType, Scenarios, Diffs, Serves;
  }

  lemma {:induction false} InScenarios(ss: seq<Scenario>, s: Snippet)
    ensures s in Scenarios(ss) <==> exists sc :: sc in ss && s == ScenarioSnippet(sc)
  {
    hide ScenarioSnippet;
    if exists sc :: sc in ss && s == ScenarioSnippet(sc) {
      var sc :| sc in ss && s == ScenarioSnippet(sc);
      var i :| 0 <= i < |ss| && ss[i] == sc;
      assert Scenarios(ss)[i] == s;
    }
  }

  lemma {:induction false} InPositions(ps: seq<string>, s: Snippet)
    ensures s in Diffs(ps) <==> exists p :: p in ps && s == DiffSnippet(p)
    ensures s in Serves(ps) <==> exists p :: p in ps && s == ServeSnippet(p)
  {
    hide DiffSnippet, ServeSnippet;
    if exists p :: p in ps && s == DiffSnippet(p) {
      var p :| p in ps && s == DiffSnippet(p);
      var i :| 0 <= i < |ps| && ps[i] == p;
      assert Diffs(ps)[i] == s;
    }
    if exists p :: p in ps && s == ServeSnippet(p) {
      var p :| p in ps && s == ServeSnippet(p);
      var i :| 0 <= i < |ps| && ps[i] == p;
      assert Serves(ps)[i] == s;
    }
  }

  // ---- What is accepted ----

  datatype Reason = NotKeyValue | UnknownType | NoScenario | WrongKind | NoAttempt | NoConfig

  function ScenarioOf(ss: seq<Scenario>, key: string): (r: Option<Scenario>)
    ensures r.Some? ==> r.value in ss && r.value.key == key
    ensures r.None? ==> forall s :: s in ss ==> s.key != key
  {
    if ss == [] then None
    else
      var later := ScenarioOf(ss[1..], key);
      if later.Some? then later
      else if ss[0].key == key then Some(ss[0]) else None
  }

  predicate TableType(t: string) {
    t == "setup" || t == "slo" || t == "summary" || t == "quality" || t == "diff" || t == "scenarios"
  }

  /** Why a block would not draw, if it would not. */
  function Check(kind: Kind, params: map<string, string>, doc: Comparison): Option<Reason> {
    var b := Block(kind, params, 0);
    if BAD in params then Some(NotKeyValue)
    else match kind
      case Chart =>
        if Type(b) == "summary" then None
        else if Type(b) == "sweep" || Type(b) == "agentic" then
          var s := ScenarioOf(doc.scenarios, Param(b, "scenario", ""));
          if s.None? then Some(NoScenario)
          else if s.value.replay != (Type(b) == "agentic") then Some(WrongKind)
          else None
        else Some(UnknownType)
      case Table =>
        if !TableType(Type(b)) then Some(UnknownType)
        else if Type(b) == "diff" && Param(b, "attempt", "1") !in doc.positions then Some(NoAttempt)
        else None
      case Command =>
        if Param(b, "config", "") != "baseline" && Param(b, "config", "") !in doc.positions then Some(NoConfig)
        else None
  }

  // ---- Why a block is refused ----

  ghost predicate HasScenario(doc: Comparison, key: string) {
    exists s :: s in doc.scenarios && s.key == key
  }

  ghost predicate AllReplay(doc: Comparison, key: string, replay: bool) {
    forall s :: s in doc.scenarios && s.key == key ==> s.replay == replay
  }

  ghost predicate NoSuchType(kind: Kind, t: string) {
    || (kind == Chart && t !in {"summary", "sweep", "agentic"})
    || (kind == Table && t !in {"setup", "slo", "summary", "quality", "diff", "scenarios"})
  }

  ghost predicate ChartOfScenario(kind: Kind, t: string) { kind == Chart && t in {"sweep", "agentic"} }

  /** A line that is not `key: value` comes first; then the type, where there is
      one, must be known; then the scenario, the attempt or the config that is
      named must be the comparison's. */
  lemma ReasonsExactly(kind: Kind, params: map<string, string>, doc: Comparison)
    ensures var why, t := Check(kind, params, doc), if "type" in params then params["type"] else "";
            var key := if "scenario" in params then params["scenario"] else "";
            var attempt := if "attempt" in params then params["attempt"] else "1";
            var config := if "config" in params then params["config"] else "";
            var said := "_bad" !in params;
            && (why == Some(NotKeyValue) <==> !said)
            && (why == Some(UnknownType) <==> said && NoSuchType(kind, t))
            && (why == Some(NoScenario) <==> said && ChartOfScenario(kind, t) && !HasScenario(doc, key))
            && (why == Some(WrongKind) ==> said && ChartOfScenario(kind, t) && !AllReplay(doc, key, t == "agentic"))
            && (said && ChartOfScenario(kind, t) && HasScenario(doc, key) && AllReplay(doc, key, t != "agentic") ==>
                 why == Some(WrongKind))
            && (why == Some(NoAttempt) <==> said && kind == Table && t == "diff" && attempt !in doc.positions)
            && (why == Some(NoConfig) <==> said && kind == Command && config != "baseline" && config !in doc.positions)
  {
  }

  // ---- What a block draws ----

  datatype Drawing =
    | Overview
    | SweepOf(scenario: string)
    | AgenticOf(scenario: string)
    | TableOf(table: string)
    | DiffOf(attempt: string)
    | ServeOf(config: string)
    | Nothing

  /** The drawing a block names; parameters it does not read are ignored. */
  ghost function DrawingOf(kind: Kind, params: map<string, string>): Drawing {
    var b := Block(kind, params, 0);
    match kind
    case Chart =>
      if Type(b) == "summary" then Overview
      else if Type(b) == "sweep" then SweepOf(Param(b, "scenario", ""))
      else if Type(b) == "agentic" then AgenticOf(Param(b, "scenario", ""))
      else Nothing
    case Table =>
      if Type(b) == "diff" then DiffOf(Param(b, "attempt", "1"))
      else if TableType(Type(b)) then TableOf(Type(b))
      else Nothing
    case Command => ServeOf(Param(b, "config", ""))
  }

  ghost function Draws(s: Snippet): Drawing { DrawingOf(s.kind, Params(s.items)) }

  ghost predicate IsOffered(doc: Comparison, d: Drawing) {
    exists s :: s in Offered(doc) && Draws(s) == d
  }

  lemma OneParam(k: string, v: string)
    ensures Params([(k, v)]) == map[k := v]
  {
    assert [(k, v)][..0] == [];
  }

  lemma TwoParams(k: string, v: string, l: string, w: string)
    ensures Params([(k, v), (l, w)]) == map[k := v][l := w]
  {
    assert [(k, v), (l, w)][..1] == [(k, v)];
    OneParam(k, v);
  }

  lemma Names()
    ensures "type" != "scenario" && "type" != "attempt" && "type" != BAD && "scenario" != BAD
    ensures "attempt" != BAD && "config" != BAD
    ensures "agentic" != "sweep" && "agentic" != "summary" && "sweep" != "summary" && "diff" != "summary"
  {
    assert "type"[0] == 't' && "scenario"[0] == 's' && "attempt"[0] == 'a' && BAD[0] == '_' && "config"[0] == 'c';
    assert "agentic"[0] == 'a' && "sweep"[1] == 'w' && "summary"[1] == 'u' && "diff"[0] == 'd';
  }

  /** What each snippet draws. */
  lemma SnippetDraws(key: string, replay: bool)
    ensures Draws(ScenarioSnippet(Scenario(key, replay))) == if replay then AgenticOf(key) else SweepOf(key)
    ensures Draws(DiffSnippet(key)) == DiffOf(key)
    ensures Draws(ServeSnippet(key)) == ServeOf(key)
    ensures Draws(OneType(Chart, "summary")) == Overview
    ensures TableType(key) && key != "diff" ==> Draws(OneType(Table, key)) == TableOf(key)
  {
    Names();
    TwoParams("type", if replay then "agentic" else "sweep", "scenario", key);
    TwoParams("type", "diff", "attempt", key);
    OneParam("config", key);
    OneParam("type", "summary");
    OneParam("type", key);
  }

  /** What a comparison offers, by drawing. */
  ghost predicate Drawable(doc: Comparison, d: Drawing) {
    match d
    case Overview => true
    case SweepOf(key) => Scenario(key, false) in doc.scenarios
    case AgenticOf(key) => Scenario(key, true) in doc.scenarios
    case TableOf(t) => TableType(t) && t != "diff"
    case DiffOf(p) => p in doc.positions
    case ServeOf(c) => c == "baseline" || c in doc.positions
    case Nothing => false
  }

  lemma OfferedIsDrawable(doc: Comparison, s: Snippet)
    requires s in Offered(doc)
    ensures Drawable(doc, Draws(s))
  {
    hide Draws, TableType, Offered, OneType, ScenarioSnippet, DiffSnippet, ServeSnippet, Scenarios, Diffs, Serves;
    InOffered(doc, s);
    InScenarios(doc.scenarios, s);
    InPositions(doc.positions, s);
    if s in Scenarios(doc.scenarios) {
      var sc :| sc in doc.scenarios && s == ScenarioSnippet(sc);
      SnippetDraws(sc.key, sc.replay);
    } else if s in Diffs(doc.positions) {
      var p :| p in doc.positions && s == DiffSnippet(p);
      SnippetDraws(p, false);
    } else if s in Serves(doc.positions) {
      var p :| p in doc.positions && s == ServeSnippet(p);
      SnippetDraws(p, false);
    } else {
      SixTables();
      SnippetDraws("setup", false);
      SnippetDraws("slo", false);
      SnippetDraws("summary", false);
      SnippetDraws("quality", false);
      SnippetDraws("scenarios", false);
      SnippetDraws("baseline", false);
    }
  }

  lemma SixTables()
    ensures TableType("setup") && TableType("slo") && TableType("summary") && TableType("quality")
    ensures TableType("scenarios") && TableType("diff")
    ensures "setup" != "diff" && "slo" != "diff" && "summary" != "diff" && "quality" != "diff" && "scenarios" != "diff"
    ensures forall t :: TableType(t) && t != "diff" ==> t in ["setup", "slo", "summary", "quality", "scenarios"]
  {
    assert "diff"[0] == 'd' && "setup"[0] == 's' && "slo"[0] == 's' && "quality"[0] == 'q';
  }

  lemma DrawableIsOffered(doc: Comparison, d: Drawing)
    requires Drawable(doc, d)
    ensures IsOffered(doc, d)
  {
    hide Draws, TableType, Offered, OneType, ScenarioSnippet, DiffSnippet, ServeSnippet, Scenarios, Diffs, Serves;
    var s := match d
      case Overview => OneType(Chart, "summary")
      case SweepOf(key) => ScenarioSnippet(Scenario(key, false))
      case AgenticOf(key) => ScenarioSnippet(Scenario(key, true))
      case TableOf(t) => OneType(Table, t)
      case DiffOf(p) => DiffSnippet(p)
      case ServeOf(c) => ServeSnippet(c)
      case Nothing => OneType(Chart, "summary");
    InOffered(doc, s);
    InScenarios(doc.scenarios, s);
    InPositions(doc.positions, s);
    SixTables();
    var name := match d
      case SweepOf(key) => key case AgenticOf(key) => key case TableOf(t) => t
      case DiffOf(p) => p case ServeOf(c) => c case _ => "";
    SnippetDraws(name, d.AgenticOf?);
    assert s in Offered(doc) && Draws(s) == d;
  }

  lemma ScenarioFound(doc: Comparison, key: string, replay: bool)
    requires UniqueKeys(doc)
    ensures ScenarioOf(doc.scenarios, key) == Some(Scenario(key, replay)) <==> Scenario(key, replay) in doc.scenarios
  {
    var s := ScenarioOf(doc.scenarios, key);
    if Scenario(key, replay) in doc.scenarios && s.Some? {
      var i :| 0 <= i < |doc.scenarios| && doc.scenarios[i] == Scenario(key, replay);
      var j :| 0 <= j < |doc.scenarios| && doc.scenarios[j] == s.value;
      assert doc.scenarios[i].key == doc.scenarios[j].key;
    }
  }

  /** What is offered is exactly what is accepted: a block passes the check
      when, and only when, all its lines read and it names a drawing that is
      offered. */
  lemma OfferedExactlyAccepted(doc: Comparison, kind: Kind, params: map<string, string>)
    requires UniqueKeys(doc)
    ensures Check(kind, params, doc).None? <==> BAD !in params && IsOffered(doc, DrawingOf(kind, params))
  {
    var d := DrawingOf(kind, params);
    OfferedExactlyDrawable(doc, d);
    CheckedIsDrawable(doc, kind, params);
  }

  lemma OfferedExactlyDrawable(doc: Comparison, d: Drawing)
    ensures IsOffered(doc, d) <==> Drawable(doc, d)
  {
    hide Drawable, Draws, Offered;
    if IsOffered(doc, d) {
      var s :| s in Offered(doc) && Draws(s) == d;
      OfferedIsDrawable(doc, s);
    }
    if Drawable(doc, d) {
      DrawableIsOffered(doc, d);
    }
  }

  lemma CheckedIsDrawable(doc: Comparison, kind: Kind, params: map<string, string>)
    requires UniqueKeys(doc)
    ensures Check(kind, params, doc).None? <==> BAD !in params && Drawable(doc, DrawingOf(kind, params))
  {
    hide TableType;
    Names();
    SixTables();
    var key := Param(Block(kind, params, 0), "scenario", "");
    ScenarioFound(doc, key, true);
    ScenarioFound(doc, key, false);
  }
}
