/**
 * The past-incidents modal of PastIncidentsModal.jsx: the fetch state
 * (loading, incidents, error) and how each fetched incident is rendered.
 * Fetched data are JSON values. Rendering fails in two ways: reading a
 * property of `null` or `undefined` throws a TypeError while the elements
 * are built, and React refuses an object as a child while it renders them.
 */
module PastIncidents {
  import opened Wrappers
  import opened Text
  import opened Json

  /**
   * A child of the analysis report: a labelled block with the value shown
   * under it, or the text a falsy number leaves behind (`0 && x` is `0`,
   * which React shows as "0").
   */
  datatype Piece = Section(heading: string, content: Value) | Stray(text: string)

  /** What renderAnalysis produces. */
  datatype AnalysisView = NoAnalysis | Sections(sections: seq<Piece>)

  /**
   * A rendered incident: title, the children of the badge row (badge texts,
   * and "0" for a flag holding 0), notes and analysis report.
   */
  datatype IncidentCard = IncidentCard(title: string, badges: seq<string>, notes: Value, analysis: AnalysisView)

  datatype RenderError =
    | TypeError      // a property of `null` or `undefined`, or a method the value lacks
    | InvalidChild   // "Objects are not valid as a React child"

  /** What the modal shows. */
  datatype View =
    | Hidden                          // `if (!open) return null`
    | Spinner                         // loading
    | ErrorMessage(message: Value)    // the error branch
    | IncidentList(cards: seq<IncidentCard>)
    | Crashed                         // the list threw while it was built or rendered

  /** How a fetch ends: the parsed body of an ok response, a non-ok response, or a throw with its message. */
  datatype FetchOutcome = Received(data: Value) | NotOk | Thrown(message: string)

  const PastIncidentsUrl: string := "http://localhost:8000/api/past-incidents"
  const NotOkMessage: string := "Failed to fetch incidents"
  /** V8's message for reading `incidents` of a `null` body. */
  const NullBodyMessage: string := "Cannot read properties of null (reading 'incidents')"
  /**
   * V8's message for reading `incidents` of `undefined`. `response.json()`
   * never yields `undefined`, so a `Received(Undefined)` outcome does not
   * arise from a real fetch; it is kept so that every value has its message.
   */
  const UndefinedBodyMessage: string := "Cannot read properties of undefined (reading 'incidents')"
  const NoAnalysisText: string := "No analysis available"
  const NoNotesText: string := "No notes added"
  const TitlePrefix: string := "Incident "
  const TitleIdLength: nat := 8
  /** What React shows for the number 0. */
  const ZeroText: string := "0"

  /** The analysis fields in display order, and their headings. */
  const AnalysisKeys: seq<string> := ["vehicleDetails", "casualties", "hazards", "environment", "services"]
  const AnalysisLabels: seq<string> := ["Vehicle Details:", "Casualties:", "Hazards:", "Environment:", "Services:"]

  /** The three service flags in badge order, and the badge texts. */
  const ServiceKeys: seq<string> := ["police", "ambulance", "fire"]
  const BadgeTexts: seq<string> := ["Police", "Ambulance", "Fire Dept"]

  /**
   * A value React accepts as a child: `undefined`, `null` and booleans
   * render nothing, numbers and strings render as text, an array renders
   * its elements, and an object is refused.
   */
  predicate Renderable(v: Value)
  {
    match v
    case Obj(_) => false
    case Arr(items) => forall i :: 0 <= i < |items| ==> Renderable(items[i])
    case _ => true
  }

  /** Whether `cond && child` leaves the falsy number 0 behind; other falsy values render nothing. */
  predicate LeavesZero(cond: Value)
  {
    cond == Num(0)
  }

  // ---- renderAnalysis ----

  /** `{analysis.key && <div>heading ...</div>}` */
  function Block(analysis: Value, key: string, heading: string): (r: seq<Piece>)
  {
    var v := Get(analysis, key);
    if Truthy(v) then [Section(heading, v)]
    else if LeavesZero(v) then [Stray(ZeroText)]
    else []
  }

  /** renderAnalysis: the fallback text for a falsy analysis, else the blocks of its fields. */
  function RenderAnalysis(analysis: Value): (r: AnalysisView)
    ensures r == NoAnalysis <==> !Truthy(analysis)
  {
    if !Truthy(analysis) then NoAnalysis
    else
      Sections(
        Block(analysis, "vehicleDetails", "Vehicle Details:") +
        Block(analysis, "casualties", "Casualties:") +
        Block(analysis, "hazards", "Hazards:") +
        Block(analysis, "environment", "Environment:") +
        Block(analysis, "services", "Services:"))
  }

  /** The text shown for an absent analysis. */
  function AnalysisText(view: AnalysisView): (r: Option<string>)
  {
    if view.NoAnalysis? then Some(NoAnalysisText) else None
  }

  /** React accepts the report: every shown field value is a valid child. */
  predicate ViewRenderable(view: AnalysisView)
  {
    view.NoAnalysis? || forall p :: p in view.sections && p.Section? ==> Renderable(p.content)
  }

  /** Reference definition: the pieces of the fields from index k on, in field order. */
  function SectionsFrom(analysis: Value, k: nat): (r: seq<Piece>)
    requires k <= |AnalysisKeys|
    decreases |AnalysisKeys| - k
  {
    if k == |AnalysisKeys| then []
    else Block(analysis, AnalysisKeys[k], AnalysisLabels[k]) + SectionsFrom(analysis, k + 1)
  }

  /** The headings of the labelled blocks, in order. */
  function Labels(pieces: seq<Piece>): (r: seq<string>)
  {
    if pieces == [] then []
    else (if pieces[0].Section? then [pieces[0].heading] else []) + Labels(pieces[1..])
  }

  lemma {:induction false} LabelsAppend(a: seq<Piece>, b: seq<Piece>)
    ensures Labels(a + b) == Labels(a) + Labels(b)
  {
    if a == [] {
      assert a + b == b;
    } else {
      assert (a + b)[0] == a[0];
      assert (a + b)[1..] == a[1..] + b;
      LabelsAppend(a[1..], b);
    }
  }

  /** The table read from index 0 is one left-nested concatenation of the five blocks. */
  lemma TableConcat(analysis: Value, v: seq<Piece>, c: seq<Piece>, h: seq<Piece>, e: seq<Piece>, s: seq<Piece>)
    requires v == Block(analysis, AnalysisKeys[0], AnalysisLabels[0])
    requires c == Block(analysis, AnalysisKeys[1], AnalysisLabels[1])
    requires h == Block(analysis, AnalysisKeys[2], AnalysisLabels[2])
    requires e == Block(analysis, AnalysisKeys[3], AnalysisLabels[3])
    requires s == Block(analysis, AnalysisKeys[4], AnalysisLabels[4])
    ensures SectionsFrom(analysis, 0) == v + c + h + e + s
  {
  }

  /** The five blocks of renderAnalysis are the field table read in order. */
  lemma RenderAnalysisIsTable(analysis: Value)
    requires Truthy(analysis)
    ensures RenderAnalysis(analysis) == Sections(SectionsFrom(analysis, 0))
  {
    TableConcat(analysis,
      Block(analysis, "vehicleDetails", "Vehicle Details:"),
      Block(analysis, "casualties", "Casualties:"),
      Block(analysis, "hazards", "Hazards:"),
      Block(analysis, "environment", "Environment:"),
      Block(analysis, "services", "Services:"));
  }

  /** A field from k on gets a labelled block iff it is truthy, and the block shows that field's value. */
  lemma {:induction false} SectionsFromMember(analysis: Value, k: nat, i: nat)
    requires k <= i < |AnalysisKeys|
    ensures (exists s :: s in SectionsFrom(analysis, k) && s.Section? && s.heading == AnalysisLabels[i]) <==>
      Truthy(Get(analysis, AnalysisKeys[i]))
    ensures forall s :: s in SectionsFrom(analysis, k) && s.Section? && s.heading == AnalysisLabels[i] ==>
      s.content == Get(analysis, AnalysisKeys[i])
    decreases |AnalysisKeys| - k
  {
    var b := Block(analysis, AnalysisKeys[k], AnalysisLabels[k]);
    var rest := SectionsFrom(analysis, k + 1);
    var h, v := AnalysisLabels[i], Get(analysis, AnalysisKeys[i]);
    assert SectionsFrom(analysis, k) == b + rest;
    HeadingInConcat(b, rest, h);
    if k < i {
      SectionsFromMember(analysis, k + 1, i);
      OtherBlockHeading(analysis, k, i);
      assert HasHeading(rest, h) <==> Truthy(v);
      assert ShowsUnder(rest, h, v);
    } else {
      OwnBlockHeading(analysis, i);
      LaterBlocksHeading(analysis, i);
    }
  }

  /** The block of field k is not headed by another field's label. */
  lemma OtherBlockHeading(analysis: Value, k: nat, i: nat)
    requires k < i < |AnalysisKeys|
    ensures !HasHeading(Block(analysis, AnalysisKeys[k], AnalysisLabels[k]), AnalysisLabels[i])
  {
    assert |AnalysisLabels[k]| != |AnalysisLabels[i]|;
  }

  /** The block of field i is headed by its label iff the field is truthy, and shows the field. */
  lemma OwnBlockHeading(analysis: Value, i: nat)
    requires i < |AnalysisKeys|
    ensures HasHeading(Block(analysis, AnalysisKeys[i], AnalysisLabels[i]), AnalysisLabels[i]) <==>
      Truthy(Get(analysis, AnalysisKeys[i]))
    ensures ShowsUnder(Block(analysis, AnalysisKeys[i], AnalysisLabels[i]), AnalysisLabels[i], Get(analysis, AnalysisKeys[i]))
  {
    var b := Block(analysis, AnalysisKeys[i], AnalysisLabels[i]);
    if Truthy(Get(analysis, AnalysisKeys[i])) {
      assert b[0] in b;
    }
  }

  /** No block after field i carries field i's label. */
  lemma LaterBlocksHeading(analysis: Value, i: nat)
    requires i < |AnalysisKeys|
    ensures !HasHeading(SectionsFrom(analysis, i + 1), AnalysisLabels[i])
  {
    var rest := SectionsFrom(analysis, i + 1);
    SectionsFromLabels(analysis, i + 1);
    forall s | s in rest && s.Section? ensures s.heading != AnalysisLabels[i] {
      LabelOfMember(rest, s);
      SubsequenceMembers(Labels(rest), AnalysisLabels[i + 1..], s.heading);
    }
  }

  /** Some block of `pieces` is headed `h`. */
  predicate HasHeading(pieces: seq<Piece>, h: string)
  {
    exists s :: s in pieces && s.Section? && s.heading == h
  }

  /** Every block of `pieces` headed `h` shows `v`. */
  predicate ShowsUnder(pieces: seq<Piece>, h: string, v: Value)
  {
    forall s :: s in pieces && s.Section? && s.heading == h ==> s.content == v
  }

  lemma HeadingInConcat(a: seq<Piece>, b: seq<Piece>, h: string)
    ensures HasHeading(a + b, h) <==> HasHeading(a, h) || HasHeading(b, h)
    ensures forall v :: ShowsUnder(a + b, h, v) <==> ShowsUnder(a, h, v) && ShowsUnder(b, h, v)
  {
    assert forall s :: s in a + b <==> s in a || s in b;
  }

  /** A number 0 left behind by the fields from k on is the text "0", and one appears iff some such field holds 0. */
  lemma {:induction false} StrayPieces(analysis: Value, k: nat)
    requires k <= |AnalysisKeys|
    ensures forall p :: p in SectionsFrom(analysis, k) && p.Stray? ==> p.text == ZeroText
    ensures (exists p :: p in SectionsFrom(analysis, k) && p.Stray?) <==>
      exists j :: k <= j < |AnalysisKeys| && Get(analysis, AnalysisKeys[j]) == Num(0)
    decreases |AnalysisKeys| - k
  {
    if k < |AnalysisKeys| {
      StrayPieces(analysis, k + 1);
      var b := Block(analysis, AnalysisKeys[k], AnalysisLabels[k]);
      if Get(analysis, AnalysisKeys[k]) == Num(0) {
        assert b[0] in SectionsFrom(analysis, k) && b[0].Stray?;
      }
      if exists j :: k < j < |AnalysisKeys| && Get(analysis, AnalysisKeys[j]) == Num(0) {
        var p :| p in SectionsFrom(analysis, k + 1) && p.Stray?;
        assert p in SectionsFrom(analysis, k);
      }
    }
  }

  lemma {:induction false} LabelOfMember(pieces: seq<Piece>, s: Piece)
    requires s in pieces && s.Section?
    ensures s.heading in Labels(pieces)
  {
    if pieces[0] != s {
      LabelOfMember(pieces[1..], s);
    }
  }

  /** The headings appear in the fixed field order, each at most once. */
  lemma {:induction false} SectionsFromLabels(analysis: Value, k: nat)
    requires k <= |AnalysisKeys|
    ensures IsSubsequence(Labels(SectionsFrom(analysis, k)), AnalysisLabels[k..])
    decreases |AnalysisKeys| - k
  {
    if k < |AnalysisKeys| {
      SectionsFromLabels(analysis, k + 1);
      var b := Block(analysis, AnalysisKeys[k], AnalysisLabels[k]);
      var rest := SectionsFrom(analysis, k + 1);
      LabelsAppend(b, rest);
      assert AnalysisLabels[k..][1..] == AnalysisLabels[k + 1..];
      if b != [] && b[0].Section? {
        assert Labels(b) == [AnalysisLabels[k]];
        assert ([AnalysisLabels[k]] + Labels(rest))[1..] == Labels(rest);
      } else {
        assert Labels(b) == [];
        assert Labels(b + rest) == Labels(rest);
        if Labels(rest) != [] {
          assert !(Labels(rest)[0] == AnalysisLabels[k..][0] && IsSubsequence(Labels(rest)[1..], AnalysisLabels[k..][1..])) ==>
            IsSubsequence(Labels(rest), AnalysisLabels[k..][1..]);
        }
      }
    }
  }

  /**
   * Of a truthy analysis, the i-th field gets a labelled block iff it is
   * truthy, that block shows the field's value, the headings keep the fixed
   * order without repeats, and a "0" is left behind iff some field holds 0.
   */
  lemma AnalysisSections(analysis: Value, i: nat)
    requires Truthy(analysis) && i < |AnalysisKeys|
    ensures var ss := RenderAnalysis(analysis).sections;
      && ((exists s :: s in ss && s.Section? && s.heading == AnalysisLabels[i]) <==> Truthy(Get(analysis, AnalysisKeys[i])))
      && (forall s :: s in ss && s.Section? && s.heading == AnalysisLabels[i] ==> s.content == Get(analysis, AnalysisKeys[i]))
      && IsSubsequence(Labels(ss), AnalysisLabels)
      && Distinct(Labels(ss))
      && (forall p :: p in ss && p.Stray? ==> p.text == ZeroText)
      && ((exists p :: p in ss && p.Stray?) <==> exists j :: 0 <= j < |AnalysisKeys| && Get(analysis, AnalysisKeys[j]) == Num(0))
  {
    RenderAnalysisIsTable(analysis);
    SectionsFromMember(analysis, 0, i);
    SectionsFromLabels(analysis, 0);
    StrayPieces(analysis, 0);
    assert AnalysisLabels[0..] == AnalysisLabels;
    SubsequenceOfDistinct(Labels(SectionsFrom(analysis, 0)), AnalysisLabels);
  }

  /** An absent analysis renders the fallback text. */
  lemma AbsentAnalysisText(analysis: Value)
    requires analysis == Undefined || analysis == Null
    ensures AnalysisText(RenderAnalysis(analysis)) == Some("No analysis available")
  {
  }

  /** A casualties count of 0 shows no "Casualties:" block but leaves the text "0" behind. */
  lemma ZeroCasualtiesShowsZero()
    ensures var view := RenderAnalysis(Obj(map["casualties" := Num(0)]));
      view == Sections([Stray("0")]) && ViewRenderable(view)
  {
    var a := Obj(map["casualties" := Num(0)]);
    assert Get(a, "vehicleDetails") == Undefined;
    assert Get(a, "hazards") == Undefined;
    assert Get(a, "environment") == Undefined;
    assert Get(a, "services") == Undefined;
  }

  // ---- the incident card ----

  /** `{flag && <span>text</span>}` */
  function Badge(services: Value, key: string, text: string): (r: seq<string>)
  {
    var flag := Get(services, key);
    if Truthy(flag) then [text]
    else if LeavesZero(flag) then [ZeroText]
    else []
  }

  /** The badge texts of a badge row, without the "0" texts that flags of 0 leave behind. */
  function BadgeNames(row: seq<string>): (r: seq<string>)
  {
    if row == [] then []
    else (if row[0] == ZeroText then [] else [row[0]]) + BadgeNames(row[1..])
  }

  lemma {:induction false} BadgeNamesAppend(a: seq<string>, b: seq<string>)
    ensures BadgeNames(a + b) == BadgeNames(a) + BadgeNames(b)
  {
    if a == [] {
      assert a + b == b;
    } else {
      assert (a + b)[0] == a[0];
      assert (a + b)[1..] == a[1..] + b;
      BadgeNamesAppend(a[1..], b);
    }
  }

  /**
   * The children of the badge row; reading a flag of `null` or `undefined`
   * throws. Each badge is shown iff its flag is truthy, in a fixed order
   * and at most once, and a "0" is shown for each flag holding 0.
   */
  function Badges(services: Value): (r: Result<seq<string>, RenderError>)
    ensures r.Err? <==> Nullish(services)
    ensures r.Err? ==> r.error == TypeError
    ensures r.Ok? ==> IsSubsequence(BadgeNames(r.value), BadgeTexts) && Distinct(BadgeNames(r.value))
    ensures r.Ok? ==> forall x :: x in r.value ==> x == ZeroText || x in BadgeTexts
    ensures r.Ok? ==> ("Police" in r.value <==> Truthy(Get(services, "police")))
    ensures r.Ok? ==> ("Ambulance" in r.value <==> Truthy(Get(services, "ambulance")))
    ensures r.Ok? ==> ("Fire Dept" in r.value <==> Truthy(Get(services, "fire")))
    ensures r.Ok? ==> (ZeroText in r.value <==>
      LeavesZero(Get(services, "police")) || LeavesZero(Get(services, "ambulance")) || LeavesZero(Get(services, "fire")))
  {
    if Nullish(services) then Err(TypeError)
    else
      var bs := Badge(services, "police", "Police") + Badge(services, "ambulance", "Ambulance") +
        Badge(services, "fire", "Fire Dept");
      BadgesOrdered(services);
      Ok(bs)
  }

  lemma BadgesOrdered(services: Value)
    ensures var bs := Badge(services, "police", "Police") + Badge(services, "ambulance", "Ambulance") +
        Badge(services, "fire", "Fire Dept");
      IsSubsequence(BadgeNames(bs), BadgeTexts) && Distinct(BadgeNames(bs))
  {
    var p, a, f := Badge(services, "police", "Police"), Badge(services, "ambulance", "Ambulance"),
      Badge(services, "fire", "Fire Dept");
    var bs := p + a + f;
    BadgeNamesAppend(p + a, f);
    BadgeNamesAppend(p, a);
    var np, na, nf := BadgeNames(p), BadgeNames(a), BadgeNames(f);
    assert np == [] || np == ["Police"];
    assert na == [] || na == ["Ambulance"];
    assert nf == [] || nf == ["Fire Dept"];
    var ns := np + na + nf;
    assert BadgeTexts[1..] == ["Ambulance", "Fire Dept"] && BadgeTexts[1..][1..] == ["Fire Dept"];
    assert ["Fire Dept"][1..] == [];
    assert IsSubsequence(nf, ["Fire Dept"]);
    assert IsSubsequence(na + nf, ["Ambulance", "Fire Dept"]) by {
      if na != [] {
        assert (na + nf)[1..] == nf;
      }
    }
    assert IsSubsequence(ns, BadgeTexts) by {
      if np != [] {
        assert ns[1..] == na + nf;
      } else {
        assert ns == na + nf;
      }
    }
    SubsequenceOfDistinct(ns, BadgeTexts);
  }

  /** `incident_id.slice(0, 8)` after "Incident "; only a string has `slice` here. */
  function Title(id: Value): (r: Result<string, RenderError>)
    ensures r.Err? <==> !id.Str?
    ensures r.Err? ==> r.error == TypeError
    ensures id.Str? && |id.s| >= TitleIdLength ==> r == Ok(TitlePrefix + id.s[..TitleIdLength])
    ensures id.Str? && |id.s| < TitleIdLength ==> r == Ok(TitlePrefix + id.s)
  {
    if !id.Str? then Err(TypeError)
    else if |id.s| <= TitleIdLength then
      assert |id.s| == TitleIdLength ==> id.s[..TitleIdLength] == id.s;
      Ok(TitlePrefix + id.s)
    else Ok(TitlePrefix + id.s[..TitleIdLength])
  }

  /** A uuid-shaped id (36 characters) gives a 17-character title that starts with the id's first 8. */
  lemma UuidTitle(id: string)
    requires |id| == 36
    ensures Title(Str(id)).Ok? && |Title(Str(id)).value| == 17
    ensures Title(Str(id)).value[|TitlePrefix|..] == id[..8]
  {
  }

  /** `incident.notes || 'No notes added'` */
  function NotesShown(notes: Value): (r: Value)
    ensures Truthy(notes) ==> r == notes
    ensures !Truthy(notes) ==> r == Str(NoNotesText)
    ensures Truthy(r)
  {
    if Truthy(notes) then notes else Str(NoNotesText)
  }

  /** Empty or absent notes show the fallback; a non-empty string shows itself. */
  lemma NotesFallback(text: string)
    ensures NotesShown(Undefined) == Str("No notes added") && NotesShown(Null) == Str("No notes added")
    ensures NotesShown(Str("")) == Str("No notes added")
    ensures text != "" ==> NotesShown(Str(text)) == Str(text)
  {
  }

  /** The property reads of one card that throw a TypeError while its elements are built. */
  predicate CardReadsFail(incident: Value)
  {
    !Get(incident, "incident_id").Str? || Nullish(Get(incident, "selected_services")) ||
    Nullish(Get(incident, "incident_report"))
  }

  /**
   * One card of the list: built from its title, badges, notes and analysis
   * report; a TypeError if a property read throws, and otherwise an invalid
   * child if the notes or a shown analysis field is an object.
   */
  function RenderIncident(incident: Value): (r: Result<IncidentCard, RenderError>)
    ensures r == Err(TypeError) <==> CardReadsFail(incident)
    ensures r == Err(InvalidChild) <==>
      !CardReadsFail(incident) &&
      !(Renderable(NotesShown(Get(incident, "notes"))) &&
        ViewRenderable(RenderAnalysis(Get(Get(incident, "incident_report"), "analysis"))))
    ensures r.Ok? ==>
      && Ok(r.value.title) == Title(Get(incident, "incident_id"))
      && Ok(r.value.badges) == Badges(Get(incident, "selected_services"))
      && r.value.notes == NotesShown(Get(incident, "notes"))
      && r.value.analysis == RenderAnalysis(Get(Get(incident, "incident_report"), "analysis"))
  {
    var title := Title(Get(incident, "incident_id"));
    var badges := Badges(Get(incident, "selected_services"));
    var report := Get(incident, "incident_report");
    if title.Err? || badges.Err? || Nullish(report) then Err(TypeError)
    else
      var notes := NotesShown(Get(incident, "notes"));
      var analysis := RenderAnalysis(Get(report, "analysis"));
      if !(Renderable(notes) && ViewRenderable(analysis)) then Err(InvalidChild)
      else Ok(IncidentCard(title.value, badges.value, notes, analysis))
  }

  /** Object-valued notes, or an object under a shown analysis field, make React refuse the card. */
  lemma ObjectChildRefused(id: string)
    ensures RenderIncident(Obj(map[
      "incident_id" := Str(id), "selected_services" := Obj(map[]), "incident_report" := Obj(map[]),
      "notes" := Obj(map["x" := Str("y")])])) == Err(InvalidChild)
    ensures RenderIncident(Obj(map[
      "incident_id" := Str(id), "selected_services" := Obj(map[]), "notes" := Str("n"),
      "incident_report" := Obj(map["analysis" := Obj(map["environment" := Obj(map[])])])])) == Err(InvalidChild)
  {
    var r := Obj(map["analysis" := Obj(map["environment" := Obj(map[])])]);
    var a := Obj(map["environment" := Obj(map[])]);
    assert Get(r, "analysis") == a;
    assert Section("Environment:", Obj(map[])) in RenderAnalysis(a).sections;
  }

  /** `incidents.map(...)`: every card, or a crash if any card throws. */
  function RenderList(incidents: seq<Value>): (r: Option<seq<IncidentCard>>)
    ensures r.Some? <==> forall i :: 0 <= i < |incidents| ==> RenderIncident(incidents[i]).Ok?
    ensures r.Some? ==> (|r.value| == |incidents| &&
      forall i :: 0 <= i < |incidents| ==> Ok(r.value[i]) == RenderIncident(incidents[i]))
  {
    if incidents == [] then Some([])
    else
      var first := RenderIncident(incidents[0]);
      var rest := RenderList(incidents[1..]);
      if first.Err? || rest.None? then
        assert first.Err? ==> !RenderIncident(incidents[0]).Ok?;
        None
      else
        var cards := [first.value] + rest.value;
        assert forall i :: 0 < i < |incidents| ==> incidents[i] == incidents[1..][i - 1];
        Some(cards)
  }

  /**
   * The modal's body for a given state: nothing when closed, else the
   * spinner, else a truthy error, else the list; `map` of a value that is
   * not an array, or a card that throws, crashes the list.
   */
  function ViewOf(open: bool, loading: bool, error: Value, incidents: Value): (r: View)
    ensures r == Hidden <==> !open
    ensures r.IncidentList? <==>
      open && !loading && !Truthy(error) && incidents.Arr? && RenderList(incidents.items).Some?
    ensures r.IncidentList? ==> Some(r.cards) == RenderList(incidents.items)
    ensures r == Crashed <==>
      open && !loading && !Truthy(error) && (!incidents.Arr? || RenderList(incidents.items).None?)
  {
    if !open then Hidden
    else if loading then Spinner
    else if Truthy(error) then ErrorMessage(error)
    else if !incidents.Arr? then Crashed
    else
      var cards := RenderList(incidents.items);
      if cards.None? then Crashed else IncidentList(cards.value)
  }

  /** A closed modal renders nothing; a loading one only the spinner; a truthy error hides any list. */
  lemma ViewPrecedence(open: bool, loading: bool, error: Value, incidents: Value)
    ensures !open <==> ViewOf(open, loading, error, incidents) == Hidden
    ensures open && loading ==> ViewOf(open, loading, error, incidents) == Spinner
    ensures open && !loading && Truthy(error) ==> ViewOf(open, loading, error, incidents) == ErrorMessage(error)
    ensures ViewOf(open, loading, error, incidents).IncidentList? ==> open && !loading && !Truthy(error)
  {
  }

  // ---- the fetch state ----

  class PastIncidentsModal {
    var open: bool
    var incidents: Value
    var loading: bool
    var error: Value
    /** Fetches issued whose response has not arrived yet. */
    var inFlight: nat

    /** Mounting: initial state, and the effect's first run fetches if the modal starts open. */
    constructor (initiallyOpen: bool)
      ensures open == initiallyOpen
      ensures incidents == Arr([]) && loading && error == Null
      ensures inFlight == if initiallyOpen then 1 else 0
    {
      open := initiallyOpen;
      incidents := Arr([]);
      loading := true;
      error := Null;
      inFlight := if initiallyOpen then 1 else 0;
    }

    /** What the modal shows now. */
    function Render(): (r: View)
      reads this
      ensures r == Hidden <==> !open
      ensures open && loading ==> r == Spinner
      ensures open && !loading && Truthy(error) ==> r == ErrorMessage(error)
      ensures open && !loading && !Truthy(error) && !incidents.Arr? ==> r == Crashed
    {
      ViewOf(open, loading, error, incidents)
    }

    /**
     * A new `open` prop. React first renders with the new prop and the old
     * state; that render is returned as `interim`. Then the effect runs if
     * the value changed, and it fetches only if the modal is now open,
     * setting `loading` first. A render that crashes stops the effect, so
     * no fetch is issued. The URL fetched, if any, is returned.
     */
    method SetOpen(newOpen: bool) returns (interim: View, request: Option<string>)
      modifies this
      ensures interim == ViewOf(newOpen, old(loading), old(error), old(incidents))
      ensures open == newOpen
      ensures request.Some? <==> newOpen && !old(open) && interim != Crashed
      ensures request.Some? ==> request.value == PastIncidentsUrl && loading && inFlight == old(inFlight) + 1
      ensures request.None? ==> loading == old(loading) && inFlight == old(inFlight)
      ensures incidents == old(incidents) && error == old(error)
    {
      var changed := newOpen != open;
      open := newOpen;
      interim := ViewOf(open, loading, error, incidents);
      if changed && newOpen && interim != Crashed {
        loading := true;
        inFlight := inFlight + 1;
        return interim, Some(PastIncidentsUrl);
      }
      return interim, None;
    }

    /**
     * A response arrives: an ok body replaces `incidents` with its
     * `incidents` property; a non-ok response, a throw, or reading a
     * property of a `null` (or `undefined`) body sets `error` to the message of what was
     * thrown. Either way loading ends. Nothing ever clears `error`.
     */
    method CompleteFetch(outcome: FetchOutcome)
      requires inFlight > 0
      modifies this
      ensures !loading && inFlight == old(inFlight) - 1 && open == old(open)
      ensures outcome.Received? && !Nullish(outcome.data) ==>
        incidents == Get(outcome.data, "incidents") && error == old(error)
      ensures outcome.Received? && outcome.data == Null ==>
        error == Str(NullBodyMessage) && incidents == old(incidents)
      ensures outcome.Received? && outcome.data == Undefined ==>
        error == Str(UndefinedBodyMessage) && incidents == old(incidents)
      ensures outcome.NotOk? ==> error == Str(NotOkMessage) && incidents == old(incidents)
      ensures outcome.Thrown? ==> error == Str(outcome.message) && incidents == old(incidents)
    {
      match outcome {
        case Received(data) =>
          if data == Null {
            error := Str(NullBodyMessage);
          } else if data == Undefined {
            error := Str(UndefinedBodyMessage);
          } else {
            incidents := Get(data, "incidents");
          }
        case NotOk =>
          error := Str(NotOkMessage);
        case Thrown(message) =>
          error := Str(message);
      }
      loading := false;
      inFlight := inFlight - 1;
    }
  }

  /**
   * After a failed fetch, reopening first shows the stale error for one
   * render, then the spinner; a later successful fetch still shows the
   * error, not the list.
   */
  method StaleErrorScenario(list: seq<Value>)
  {
    var m := new PastIncidentsModal(true);
    m.CompleteFetch(NotOk);
    assert m.Render() == ErrorMessage(Str(NotOkMessage));
    var v, r := m.SetOpen(false);
    assert v == Hidden && m.Render() == Hidden;
    v, r := m.SetOpen(true);
    assert v == ErrorMessage(Str(NotOkMessage)) && r.Some?;
    assert m.Render() == Spinner;
    m.CompleteFetch(Received(Obj(map["incidents" := Arr(list)])));
    assert m.Render() == ErrorMessage(Str(NotOkMessage));
  }

  /**
   * Reopening while a fetch is pending issues a second one; the first
   * response to arrive ends loading although the other is still pending.
   */
  method OverlappingFetchScenario(list: seq<Value>)
  {
    var m := new PastIncidentsModal(true);
    var v, r := m.SetOpen(false);
    v, r := m.SetOpen(true);
    assert v == Spinner && m.inFlight == 2;
    m.CompleteFetch(Received(Obj(map["incidents" := Arr([])])));
    assert m.Render() == IncidentList([]) && m.inFlight == 1;
  }

  /**
   * A body without `incidents` that arrives while the modal is closed
   * leaves `incidents` undefined. Reopening then renders `undefined.map`,
   * which crashes before the effect can fetch again.
   */
  method CrashOnReopenScenario()
  {
    var m := new PastIncidentsModal(true);
    var v, r := m.SetOpen(false);
    m.CompleteFetch(Received(Obj(map[])));
    assert m.incidents == Undefined;
    v, r := m.SetOpen(true);
    assert v == Crashed && r.None?;
    assert m.Render() == Crashed;
  }
}
