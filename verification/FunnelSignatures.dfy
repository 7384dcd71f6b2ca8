/** Query signatures and outbound payloads of funnel reports (src/tools.rs, src/ga_client.rs). */
module FunnelSignatures {
  import opened Basics
  import opened Numerals
  import opened JsonCase
  import opened Signatures

  // ---------- steps ----------

  datatype Step = Step(
    name: Option<string>,
    event: Option<string>,
    filterExpression: Option<Json>,
    directlyFollowed: Option<bool>,
    withinDuration: Option<string>)

  function BoolOf(value: Option<bool>): Option<Json> { if value.Some? then Some(Bool(value.value)) else None }

  /** A step as serde writes it, absent options left out. */
  function StepFields(s: Step): map<string, Json> {
    var f := Put(map[], "name", StrOf(s.name));
    var f := Put(f, "event", StrOf(s.event));
    var f := Put(f, "filter_expression", s.filterExpression);
    var f := Put(f, "is_directly_followed_by", BoolOf(s.directlyFollowed));
    Put(f, "within_duration_from_prior_step", StrOf(s.withinDuration))
  }

  /** The long form of the event shorthand. */
  function EventFilter(event: Json): Json {
    Obj(map["funnel_event_filter" := Obj(map["event_name" := event])])
  }

  function DefaultName(index: nat): string { "Step " + ToDecimal(index + 1) }

  /** A step object with its name filled in and its event spelled out. */
  function Expanded(fields: map<string, Json>, index: nat): map<string, Json> {
    var named := if "name" in fields then fields else fields["name" := Str(DefaultName(index))];
    if "event" in named then (named - {"event"})["filter_expression" := EventFilter(named["event"])] else named
  }

  ghost function NormalizeFunnelStep(step: Json, index: nat): Json {
    match step
    case Obj(fields) => ToCamel(Obj(Expanded(fields, index)))
    case _ => ToCamel(step)
  }

  ghost function NormalizedSteps(steps: seq<Step>): seq<Json> {
    seq(|steps|, i requires 0 <= i < |steps| => NormalizeFunnelStep(Obj(StepFields(steps[i])), i))
  }

  /** The shorthand `event` and the filter it stands for make one step. */
  lemma ShorthandIsExpansion(s: Step, event: string, index: nat)
    requires s.event == Some(event) && s.filterExpression.None?
    ensures var long := s.(event := None, filterExpression := Some(EventFilter(Str(event))));
            NormalizeFunnelStep(Obj(StepFields(s)), index) == NormalizeFunnelStep(Obj(StepFields(long)), index)
  {
    hide ToCamel, EventFilter;
    var long := s.(event := None, filterExpression := Some(EventFilter(Str(event))));
    assert Expanded(StepFields(s), index) == Expanded(StepFields(long), index);
  }

  /** An omitted name is the step's number. */
  lemma OmittedNameIsDefault(s: Step, index: nat)
    requires s.name.None?
    ensures var named := s.(name := Some(DefaultName(index)));
            NormalizeFunnelStep(Obj(StepFields(s)), index) == NormalizeFunnelStep(Obj(StepFields(named)), index)
  {
    hide ToCamel, EventFilter, DefaultName;
    var named := s.(name := Some(DefaultName(index)));
    assert Expanded(StepFields(s), index) == Expanded(StepFields(named), index);
  }

  lemma StepKeys()
    ensures Snake("name") && Snake("filter_expression") && Snake("is_directly_followed_by")
    ensures Snake("within_duration_from_prior_step")
  {}

  lemma FilterKeyCamel()
    ensures CamelKey("filter_expression") == "filterExpression"
  {
    hide CamelKey;
    NoUnderscoreKept("xpression");
    TwoWords("filter", 'e', "xpression");
    assert "filter_expression" == "filter" + "_" + ['e'] + "xpression";
  }

  /** A key of four words, or of fewer: each but the first starts in upper case. */
  lemma FourWords(a: string, c: char, b: string, d: char, e: string, f: char, g: string)
    requires '_' !in a && '_' !in b && '_' !in e && '_' !in g && '_' !in [c, d, f]
    ensures CamelKey(e + "_" + [f] + g) == e + [Upper(f)] + g
    ensures CamelKey(b + "_" + [d] + (e + "_" + [f] + g)) == b + [Upper(d)] + (e + [Upper(f)] + g)
    ensures CamelKey(a + "_" + [c] + (b + "_" + [d] + (e + "_" + [f] + g)))
         == a + [Upper(c)] + (b + [Upper(d)] + (e + [Upper(f)] + g))
  {
    hide CamelKey;
    assert c in [c, d, f] && d in [c, d, f] && f in [c, d, f];
    NoUnderscoreKept(g);
    TwoWords(e, f, g);
    TwoWords(b, d, e + "_" + [f] + g);
    TwoWords(a, c, b + "_" + [d] + (e + "_" + [f] + g));
  }

  lemma FollowedText()
    ensures "is_directly_followed_by" == "is" + "_" + ['d'] + ("irectly" + "_" + ['f'] + ("ollowed" + "_" + ['b'] + "y"))
    ensures "isDirectlyFollowedBy" == "is" + ['D'] + ("irectly" + ['F'] + ("ollowed" + ['B'] + "y"))
  {}

  lemma FollowedKeyCamel()
    ensures CamelKey("is_directly_followed_by") == "isDirectlyFollowedBy"
  {
    hide CamelKey;
    FourWords("is", 'd', "irectly", 'f', "ollowed", 'b', "y");
    FollowedText();
  }

  lemma WithinText()
    ensures "within_duration_from_prior_step" == "within" + "_" + ['d'] + "uration_from_prior_step"
  {}

  lemma WithinCamelText()
    ensures "withinDurationFromPriorStep" == "within" + ['D'] + "urationFromPriorStep"
  {}

  lemma DurationText()
    ensures "uration_from_prior_step" == "uration" + "_" + ['f'] + "rom_prior_step"
    ensures "urationFromPriorStep" == "uration" + ['F'] + "romPriorStep"
  {}

  lemma FromText()
    ensures "rom_prior_step" == "rom" + "_" + ['p'] + "rior_step" && "romPriorStep" == "rom" + ['P'] + "riorStep"
    ensures "rior_step" == "rior" + "_" + ['s'] + "tep" && "riorStep" == "rior" + ['S'] + "tep"
  {}

  lemma WithinKeyCamel()
    ensures CamelKey("within_duration_from_prior_step") == "withinDurationFromPriorStep"
  {
    hide CamelKey;
    WithinText();
    WithinCamelText();
    DurationText();
    FromText();
    NoUnderscoreKept("tep");
    TwoWords("rior", 's', "tep");
    TwoWords("rom", 'p', "rior_step");
    TwoWords("uration", 'f', "rom_prior_step");
    TwoWords("within", 'd', "uration_from_prior_step");
  }

  lemma EventKeys()
    ensures Snake("funnel_event_filter") && Snake("event_name")
  {}

  lemma EventKeysCamel()
    ensures CamelKey("funnel_event_filter") == "funnelEventFilter" && CamelKey("event_name") == "eventName"
  {
    hide CamelKey;
    NoUnderscoreKept("ame");
    TwoWords("event", 'n', "ame");
    NoUnderscoreKept("ilter");
    TwoWords("vent", 'f', "ilter");
    TwoWords("funnel", 'e', "vent" + "_" + ['f'] + "ilter");
    assert "event_name" == "event" + "_" + ['n'] + "ame";
    assert "funnel_event_filter" == "funnel" + "_" + ['e'] + ("vent" + "_" + ['f'] + "ilter");
    assert "funnelEventFilter" == "funnel" + ['E'] + ("vent" + ['F'] + "ilter");
  }

  lemma OneField(k: string, v: Json)
    requires Snake(k)
    ensures ToCamel(Obj(map[k := v])) == Obj(map[CamelKey(k) := ToCamel(v)])
  {
    hide Snake, ToCamel, CamelKey;
    var none: map<string, Json> := map[];
    NoFields();
    RewrittenPut(none, none, k, v);
    assert none[k := v] == map[k := v] && none[CamelKey(k) := ToCamel(v)] == map[CamelKey(k) := ToCamel(v)];
  }

  /** The event shorthand stands for a filter on the event's name. */
  lemma EventFilterIs(event: string)
    ensures ToCamel(EventFilter(Str(event))) == Obj(map["funnelEventFilter" := Obj(map["eventName" := Str(event)])])
  {
    hide Snake, ToCamel, CamelKey;
    EventKeys();
    EventKeysCamel();
    assert ToCamel(Str(event)) == Str(event) by { PlainIsKept(Str(event)); }
    OneField("event_name", Str(event));
    OneField("funnel_event_filter", Obj(map["event_name" := Str(event)]));
  }

  lemma OptionalField(f: map<string, Json>, g: map<string, Json>, k: string, v: Option<Json>)
    requires ToCamel(Obj(f)) == Obj(g) && k !in f && Snake(k) && forall j | j in f :: Snake(j)
    ensures ToCamel(Obj(Put(f, k, v))) == Obj(Put(g, CamelKey(k), CamelOf(v)))
  {
    hide Snake, ToCamel, CamelKey;
    if v.Some? { RewrittenPut(f, g, k, v.value); }
  }

  /** A step object in the order of its fields. */
  function FullStep(s: Step, index: nat): map<string, Json> {
    var f := map["name" := Str(if s.name.Some? then s.name.value else DefaultName(index))];
    var f := Put(f, "filter_expression", if s.event.Some? then Some(EventFilter(Str(s.event.value))) else s.filterExpression);
    var f := Put(f, "is_directly_followed_by", BoolOf(s.directlyFollowed));
    Put(f, "within_duration_from_prior_step", StrOf(s.withinDuration))
  }

  lemma ExpandedIsFull(s: Step, index: nat)
    ensures Expanded(StepFields(s), index) == FullStep(s, index)
  {
    hide DefaultName, EventFilter;
  }

  /** What a step is sent as: its name, or `Step` and its number counted from one; the filter its event stands for, or
      the filter it has; and the two conditions it may have. */
  lemma StepIs(s: Step, index: nat)
    ensures NormalizeFunnelStep(Obj(StepFields(s)), index) ==
            var f := map["name" := Str(if s.name.Some? then s.name.value else "Step " + ToDecimal(index + 1))];
            var f := Put(f, "filterExpression",
                         if s.event.Some?
                         then Some(Obj(map["funnelEventFilter" := Obj(map["eventName" := Str(s.event.value)])]))
                         else CamelOf(s.filterExpression));
            var f := Put(f, "isDirectlyFollowedBy", if s.directlyFollowed.Some? then Some(Bool(s.directlyFollowed.value)) else None);
            Obj(Put(f, "withinDurationFromPriorStep", if s.withinDuration.Some? then Some(Str(s.withinDuration.value)) else None))
  {
    hide Snake, ToCamel, CamelKey, EventFilter, StepFields, Expanded, ToDecimal, Put;
    ExpandedIsFull(s, index);
    var name := Str(if s.name.Some? then s.name.value else DefaultName(index));
    var filter := if s.event.Some? then Some(EventFilter(Str(s.event.value))) else s.filterExpression;
    if s.event.Some? { EventFilterIs(s.event.value); }
    ScalarsKept(s);
    NameIsKept(name.s);
    FullStepIs(name, filter, BoolOf(s.directlyFollowed), StrOf(s.withinDuration));
  }

  lemma ScalarsKept(s: Step)
    ensures CamelOf(BoolOf(s.directlyFollowed)) == BoolOf(s.directlyFollowed)
    ensures CamelOf(StrOf(s.withinDuration)) == StrOf(s.withinDuration)
  {}

  lemma FullStepIs(name: Json, filter: Option<Json>, followed: Option<Json>, within: Option<Json>)
    requires ToCamel(Obj(map["name" := name])) == Obj(map["name" := name])
    ensures ToCamel(Obj(Put(Put(Put(map["name" := name], "filter_expression", filter), "is_directly_followed_by", followed),
                            "within_duration_from_prior_step", within)))
         == Obj(Put(Put(Put(map["name" := name], "filterExpression", CamelOf(filter)), "isDirectlyFollowedBy", CamelOf(followed)),
                    "withinDurationFromPriorStep", CamelOf(within)))
  {
    hide Snake, ToCamel, CamelKey, CamelOf;
    StepKeys();
    FilterKeyCamel();
    FollowedKeyCamel();
    WithinKeyCamel();
    var f0, g0 := map["name" := name], map["name" := name];
    OptionalField(f0, g0, "filter_expression", filter);
    var f1, g1 := Put(f0, "filter_expression", filter), Put(g0, "filterExpression", CamelOf(filter));
    OptionalField(f1, g1, "is_directly_followed_by", followed);
    var f2, g2 := Put(f1, "is_directly_followed_by", followed), Put(g1, "isDirectlyFollowedBy", CamelOf(followed));
    OptionalField(f2, g2, "within_duration_from_prior_step", within);
  }

  lemma DecimalOfOne()
    ensures "Step " + ToDecimal(1) == "Step 1"
  {}

  /** The first step without a name is "Step 1". */
  lemma FirstStepName(s: Step)
    requires s == Step(None, Some("purchase"), None, None, None)
    ensures NormalizeFunnelStep(Obj(StepFields(s)), 0) ==
            Obj(map["name" := Str("Step 1"),
                    "filterExpression" := Obj(map["funnelEventFilter" := Obj(map["eventName" := Str("purchase")])])])
  {
    hide NormalizeFunnelStep, StepFields, ToDecimal;
    StepIs(s, 0);
    DecimalOfOne();
  }

  // ---------- requests ----------

  datatype Visualization = StandardFunnel | TrendedFunnel {
    function AsStr(): string { match this case StandardFunnel => "STANDARD_FUNNEL" case TrendedFunnel => "TRENDED_FUNNEL" }
  }

  /** A dimension and the most values of it to tell apart. */
  datatype Sub = Sub(dimension: string, most: Option<nat>)

  datatype FunnelArgs = FunnelArgs(
    steps: seq<Step>,
    isOpen: bool,
    dateRanges: seq<Json>,
    breakdown: Option<Sub>,
    nextAction: Option<Sub>,
    visualization: Option<Visualization>,
    segments: Option<seq<Json>>,
    dimensionFilter: Option<Json>,
    quota: bool)

  function SubFields(key: string, sub: Sub): map<string, Json> {
    Put(map[key := Obj(map["name" := Str(sub.dimension)])], "limit", StrOf(Decimal(sub.most)))
  }

  function SubOf(key: string, sub: Option<Sub>): Option<Json> {
    if sub.Some? then Some(Obj(SubFields(key, sub.value))) else None
  }

  function VisualizationOf(v: Option<Visualization>): Option<Json> { if v.Some? then Some(Str(v.value.AsStr())) else None }

  ghost function FunnelFields(property: string, a: FunnelArgs): map<string, Json> {
    map[
      "tool" := Str("run_funnel_report"),
      "property" := Str(property),
      "funnel_steps" := Arr(NormalizedSteps(a.steps)),
      "is_open_funnel" := Bool(a.isOpen),
      "date_ranges" := Arr(a.dateRanges),
      "funnel_breakdown" := OrNull(SubOf("breakdown_dimension", a.breakdown)),
      "funnel_next_action" := OrNull(SubOf("next_action_dimension", a.nextAction)),
      "funnel_visualization_type" := OrNull(VisualizationOf(a.visualization)),
      "segments" := OrNull(ArrOf(a.segments)),
      "dimension_filter" := OrNull(a.dimensionFilter),
      "return_property_quota" := Bool(a.quota)]
  }

  /** The signature before it is serialised and hashed. */
  ghost function FunnelSignature(property: string, a: FunnelArgs): Json { ToCamel(Obj(FunnelFields(property, a))) }

  function FunnelJson(isOpen: bool, steps: seq<Json>): Json {
    Obj(map["isOpenFunnel" := Bool(isOpen), "steps" := Arr(steps)])
  }

  ghost function FunnelPayload(a: FunnelArgs, limit: nat): map<string, Json> {
    var p := map[
      "funnel" := FunnelJson(a.isOpen, NormalizedSteps(a.steps)),
      "returnPropertyQuota" := Bool(a.quota)];
    var p := Put(p, "dateRanges", if a.dateRanges != [] then Some(Arr(CamelAll(a.dateRanges))) else None);
    var p := Put(p, "funnelBreakdown", CamelOf(SubOf("breakdown_dimension", a.breakdown)));
    var p := Put(p, "funnelNextAction", CamelOf(SubOf("next_action_dimension", a.nextAction)));
    var p := Put(p, "funnelVisualizationType", VisualizationOf(a.visualization));
    var p := Put(p, "segments", ArrOf(CamelOrders(a.segments)));
    var p := Put(p, "dimensionFilter", CamelOf(a.dimensionFilter));
    Put(p, "limit", StrOf(Decimal(Some(limit))))
  }

  /** The field of a breakdown or a next action: the dimension's name, and how many of its values as decimal text. */
  lemma SubIs(key: string, camelKey: string, sub: Sub)
    requires Snake(key) && CamelKey(key) == camelKey && key != "limit"
    ensures CamelOf(SubOf(key, Some(sub))) ==
            Some(Obj(Put(map[camelKey := Obj(map["name" := Str(sub.dimension)])], "limit",
                         if sub.most.Some? then Some(Str(ToDecimal(sub.most.value))) else None)))
  {
    hide Snake, ToCamel, CamelKey, ToDecimal;
    var name := Obj(map["name" := Str(sub.dimension)]);
    NameIsKept(sub.dimension);
    SubKeys();
    SubSnakes();
    OneField(key, name);
    if sub.most.Some? {
      var most := Str(ToDecimal(sub.most.value));
      StrIsKept(ToDecimal(sub.most.value));
      RewrittenPut(map[key := name], map[camelKey := name], "limit", most);
    }
  }

  lemma NameIsKept(name: string)
    ensures ToCamel(Obj(map["name" := Str(name)])) == Obj(map["name" := Str(name)])
  {
    PlainIsKept(Obj(map["name" := Str(name)]));
  }

  lemma StrIsKept(s: string)
    ensures ToCamel(Str(s)) == Str(s)
  {}

  lemma SubSnakes()
    ensures Snake("limit") && Snake("breakdown_dimension") && Snake("next_action_dimension")
  {}

  lemma SubKeys()
    ensures CamelKey("limit") == "limit" && CamelKey("breakdown_dimension") == "breakdownDimension"
  {
    hide CamelKey;
    NoUnderscoreKept("limit");
    NoUnderscoreKept("imension");
    TwoWords("breakdown", 'd', "imension");
    assert "breakdown_dimension" == "breakdown" + "_" + ['d'] + "imension";
  }

  lemma NextActionKey()
    ensures CamelKey("next_action_dimension") == "nextActionDimension"
  {
    hide CamelKey;
    NoUnderscoreKept("imension");
    TwoWords("ction", 'd', "imension");
    TwoWords("next", 'a', "ction" + "_" + ['d'] + "imension");
    assert "next_action_dimension" == "next" + "_" + ['a'] + ("ction" + "_" + ['d'] + "imension");
    assert "nextActionDimension" == "next" + ['A'] + ("ction" + ['D'] + "imension");
  }

  function SentSub(key: string, sub: Option<Sub>): Option<Json> {
    match sub
    case None => None
    case Some(d) =>
      Some(Obj(Put(map[key := Obj(map["name" := Str(d.dimension)])], "limit",
                   if d.most.Some? then Some(Str(ToDecimal(d.most.value))) else None)))
  }

  /** The payload field by field: the funnel, the quota flag and the limit, ... */
  lemma FunnelPayloadFixed(a: FunnelArgs, limit: nat)
    ensures var p := FunnelPayload(a, limit);
            && Field(p, "funnel") == Some(Obj(map["isOpenFunnel" := Bool(a.isOpen), "steps" := Arr(NormalizedSteps(a.steps))]))
            && Field(p, "returnPropertyQuota") == Some(Bool(a.quota))
            && Field(p, "limit") == Some(Str(ToDecimal(limit)))
  {
    hide NormalizedSteps, CamelAll, SubOf, CamelOf, CamelOrders, VisualizationOf, ToDecimal;
  }

  lemma StepsAre(steps: seq<Step>)
    ensures |NormalizedSteps(steps)| == |steps|
    ensures forall i | 0 <= i < |steps| :: NormalizedSteps(steps)[i] == NormalizeFunnelStep(Obj(StepFields(steps[i])), i)
  {
    hide NormalizeFunnelStep, StepFields;
  }

  /** ... what divides it up, ... */
  lemma FunnelPayloadSubs(a: FunnelArgs, limit: nat)
    ensures var p := FunnelPayload(a, limit);
            && Field(p, "funnelBreakdown") == SentSub("breakdownDimension", a.breakdown)
            && Field(p, "funnelNextAction") == SentSub("nextActionDimension", a.nextAction)
  {
    hide NormalizedSteps, CamelAll, SubFields, ToCamel, Snake, CamelKey, CamelOrders, VisualizationOf, ToDecimal, FunnelPayload;
    SubSnakes();
    if a.breakdown.Some? {
      SubKeys();
      SubIs("breakdown_dimension", "breakdownDimension", a.breakdown.value);
    }
    if a.nextAction.Some? {
      NextActionKey();
      SubIs("next_action_dimension", "nextActionDimension", a.nextAction.value);
    }
    FunnelPayloadSubFields(a, limit);
  }

  lemma FunnelPayloadSubFields(a: FunnelArgs, limit: nat)
    ensures var p := FunnelPayload(a, limit);
            && Field(p, "funnelBreakdown") == CamelOf(SubOf("breakdown_dimension", a.breakdown))
            && Field(p, "funnelNextAction") == CamelOf(SubOf("next_action_dimension", a.nextAction))
  {
    hide NormalizedSteps, CamelAll, SubOf, CamelOf, CamelOrders, VisualizationOf, ToDecimal;
  }

  /** ... and the other options. */
  lemma FunnelPayloadOptions(a: FunnelArgs, limit: nat)
    ensures var p := FunnelPayload(a, limit);
            && Field(p, "dateRanges") == (if a.dateRanges != [] then Some(Arr(CamelAll(a.dateRanges))) else None)
            && Field(p, "funnelVisualizationType") ==
               (match a.visualization
                case None => None
                case Some(StandardFunnel) => Some(Str("STANDARD_FUNNEL"))
                case Some(TrendedFunnel) => Some(Str("TRENDED_FUNNEL")))
            && Field(p, "segments") == (if a.segments.Some? then Some(Arr(CamelAll(a.segments.value))) else None)
            && Field(p, "dimensionFilter") == CamelOf(a.dimensionFilter)
  {
    hide NormalizedSteps, CamelAll, SubOf, CamelOf, ToDecimal;
  }

  // ---------- what both of them say ----------

  /** What a funnel request asks, whatever the spelling. */
  datatype FunnelQuery = FunnelQuery(
    steps: seq<Json>,
    isOpen: bool,
    dateRanges: seq<Json>,
    breakdown: Option<Json>,
    nextAction: Option<Json>,
    visualization: Option<Json>,
    segments: Option<seq<Json>>,
    dimensionFilter: Json,
    quota: bool)

  ghost function FunnelQueryOf(a: FunnelArgs): FunnelQuery {
    FunnelQuery(
      NormalizedSteps(a.steps), a.isOpen, CamelAll(a.dateRanges), CamelOf(SubOf("breakdown_dimension", a.breakdown)),
      CamelOf(SubOf("next_action_dimension", a.nextAction)), VisualizationOf(a.visualization), CamelOrders(a.segments),
      OrNull(CamelOf(a.dimensionFilter)), a.quota)
  }

  // ---------- the signature says the query ----------

  lemma FunnelKeys()
    ensures Snake("funnel_steps") && Snake("is_open_funnel") && Snake("funnel_breakdown")
  {}

  lemma MoreFunnelKeys()
    ensures Snake("funnel_next_action") && Snake("funnel_visualization_type") && Snake("segments")
  {}

  /** The signature's second rewrite leaves the steps of the payload as they are. */
  lemma StepsAreRewritten(steps: seq<Step>)
    ensures ToCamel(Arr(NormalizedSteps(steps))) == Arr(NormalizedSteps(steps))
  {
    hide ToCamel, StepFields, Expanded;
    ArrayKept(NormalizedSteps(steps));
    forall i | 0 <= i < |steps| ensures ToCamel(NormalizedSteps(steps)[i]) == NormalizedSteps(steps)[i] {
      ToCamelIdempotent(Obj(Expanded(StepFields(steps[i]), i)));
    }
  }

  lemma SubIsNotNull(key: string, sub: Option<Sub>)
    ensures CamelOf(SubOf(key, sub)) != Some(Null)
  {
    hide SubFields, ToCamel;
    if sub.Some? { ObjectIsNotNull(SubFields(key, sub.value)); }
  }

  lemma FunnelFieldsSay(property: string, a: FunnelArgs)
    ensures var f, q := FunnelFields(property, a), FunnelQueryOf(a);
            && {"tool", "property", "funnel_steps", "is_open_funnel", "date_ranges"} <= f.Keys
            && ToCamel(f["tool"]) == Str("run_funnel_report")
            && ToCamel(f["property"]) == Str(property)
            && ToCamel(f["funnel_steps"]) == Arr(q.steps)
            && ToCamel(f["is_open_funnel"]) == Bool(q.isOpen)
            && ToCamel(f["date_ranges"]) == Arr(q.dateRanges)
  {
    hide NormalizedSteps, CamelAll, SubOf, CamelOf, CamelOrders, VisualizationOf;
    ArrayKept(a.dateRanges);
    StepsAreRewritten(a.steps);
  }

  lemma MoreFunnelFieldsSay(property: string, a: FunnelArgs)
    ensures var f, q := FunnelFields(property, a), FunnelQueryOf(a);
            && {"funnel_breakdown", "funnel_next_action", "funnel_visualization_type", "segments", "dimension_filter",
                "return_property_quota"} <= f.Keys
            && ToCamel(f["funnel_breakdown"]) == OrNull(q.breakdown)
            && ToCamel(f["funnel_next_action"]) == OrNull(q.nextAction)
            && ToCamel(f["funnel_visualization_type"]) == OrNull(q.visualization)
            && ToCamel(f["segments"]) == OrNull(ArrOf(q.segments))
            && ToCamel(f["dimension_filter"]) == q.dimensionFilter
            && ToCamel(f["return_property_quota"]) == Bool(q.quota)
  {
    hide NormalizedSteps, CamelAll, SubOf, CamelOf, CamelOrders;
    OrNullKept(SubOf("breakdown_dimension", a.breakdown));
    OrNullKept(SubOf("next_action_dimension", a.nextAction));
    OrNullKept(VisualizationOf(a.visualization));
    assert CamelOf(VisualizationOf(a.visualization)) == VisualizationOf(a.visualization) by { VisualizationKept(a.visualization); }
    OrdersKept(a.segments);
    OrNullKept(a.dimensionFilter);
    hide VisualizationOf;
  }

  lemma VisualizationKept(v: Option<Visualization>)
    ensures CamelOf(VisualizationOf(v)) == VisualizationOf(v) != Some(Null)
  {}

  lemma FunnelFieldKeys(property: string, a: FunnelArgs)
    ensures FunnelFields(property, a).Keys == {
              "tool", "property", "funnel_steps", "is_open_funnel", "date_ranges", "funnel_breakdown", "funnel_next_action",
              "funnel_visualization_type", "segments", "dimension_filter", "return_property_quota"}
  {}

  lemma AgreeingFunnelsAskOne(property: string, a: FunnelArgs, other: string, b: FunnelArgs)
    requires Agree(FunnelFields(property, a), FunnelFields(other, b))
    ensures property == other && FunnelQueryOf(a) == FunnelQueryOf(b)
  {
    hide ToCamel, NormalizedSteps, CamelAll, SubOf, CamelOf, CamelOrders, FunnelFields, VisualizationOf;
    FunnelFieldsSay(property, a);
    FunnelFieldsSay(other, b);
    MoreFunnelFieldsSay(property, a);
    MoreFunnelFieldsSay(other, b);
    SubIsNotNull("breakdown_dimension", a.breakdown);
    SubIsNotNull("breakdown_dimension", b.breakdown);
    SubIsNotNull("next_action_dimension", a.nextAction);
    SubIsNotNull("next_action_dimension", b.nextAction);
    VisualizationKept(a.visualization);
    VisualizationKept(b.visualization);
  }

  lemma FunnelsAskingOneAgree(property: string, a: FunnelArgs, b: FunnelArgs)
    requires FunnelQueryOf(a) == FunnelQueryOf(b)
    ensures Agree(FunnelFields(property, a), FunnelFields(property, b))
  {
    hide ToCamel, FunnelQueryOf, FunnelFields;
    FunnelFieldKeys(property, a);
    FunnelFieldKeys(property, b);
    FunnelFieldsSay(property, a);
    FunnelFieldsSay(property, b);
    MoreFunnelFieldsSay(property, a);
    MoreFunnelFieldsSay(property, b);
  }

  lemma FunnelKeysAreSnake(property: string, a: FunnelArgs)
    ensures forall k | k in FunnelFields(property, a) :: Snake(k)
  {
    hide Snake, FunnelFields;
    FunnelFieldKeys(property, a);
    SharedKeys();
    FunnelKeys();
    MoreFunnelKeys();
  }

  /** Two funnel signatures are equal exactly when both requests ask one property the same query. */
  lemma FunnelSignatureSays(property: string, a: FunnelArgs, other: string, b: FunnelArgs)
    ensures FunnelSignature(property, a) == FunnelSignature(other, b)
            <==> property == other && FunnelQueryOf(a) == FunnelQueryOf(b)
  {
    hide Snake, ToCamel, FunnelQueryOf, FunnelFields;
    FunnelKeysAreSnake(property, a);
    FunnelKeysAreSnake(other, b);
    var f, g := FunnelFields(property, a), FunnelFields(other, b);
    SnakesApart(f.Keys + g.Keys);
    RewrittenAgree(f, g);
    if Agree(f, g) { AgreeingFunnelsAskOne(property, a, other, b); }
    if FunnelQueryOf(a) == FunnelQueryOf(b) { FunnelsAskingOneAgree(property, a, b); }
  }

  // ---------- the payload says the query ----------

  function DatesOf(dates: seq<Json>): Option<Json> { if dates != [] then Some(Arr(dates)) else None }

  /** The payload a query has, apart from its limit. */
  ghost function FunnelShapeOf(q: FunnelQuery): map<string, Json> {
    var p := map["funnel" := FunnelJson(q.isOpen, q.steps), "returnPropertyQuota" := Bool(q.quota)];
    var p := Put(p, "dateRanges", DatesOf(q.dateRanges));
    var p := Put(p, "funnelBreakdown", q.breakdown);
    var p := Put(p, "funnelNextAction", q.nextAction);
    var p := Put(p, "funnelVisualizationType", q.visualization);
    var p := Put(p, "segments", ArrOf(q.segments));
    Put(p, "dimensionFilter", NonNull(q.dimensionFilter))
  }

  lemma PlainPut(p: map<string, Json>, key: string, value: Option<Json>)
    requires key !in p && key !in {"limit", "offset"} && value != Some(Null)
    ensures Shape(Put(p, key, value)) == Put(Shape(p), key, value)
  {
    hide Shape;
    ShapeOfPut(p, key, value);
  }

  lemma FirstHalf(a: FunnelArgs, p: map<string, Json>)
    requires p == map["funnel" := FunnelJson(a.isOpen, NormalizedSteps(a.steps)), "returnPropertyQuota" := Bool(a.quota)]
    ensures var q := FunnelQueryOf(a);
            Shape(Put(Put(p, "dateRanges", if a.dateRanges != [] then Some(Arr(CamelAll(a.dateRanges))) else None),
                      "funnelBreakdown", q.breakdown))
            == Put(Put(p, "dateRanges", DatesOf(q.dateRanges)), "funnelBreakdown", q.breakdown)
  {
    var dates := if a.dateRanges != [] then Some(Arr(CamelAll(a.dateRanges))) else None;
    assert |CamelAll(a.dateRanges)| == |a.dateRanges|;
    hide Shape, NormalizedSteps, CamelAll, SubOf, ToCamel;
    ShapeOfPlain(p);
    PlainPut(p, "dateRanges", dates);
    SubIsNotNull("breakdown_dimension", a.breakdown);
    PlainPut(Put(p, "dateRanges", dates), "funnelBreakdown", FunnelQueryOf(a).breakdown);
  }

  lemma SecondHalf(a: FunnelArgs, p: map<string, Json>, limit: nat)
    requires p.Keys !! {"funnelNextAction", "funnelVisualizationType", "segments", "dimensionFilter", "limit"}
    ensures var q := FunnelQueryOf(a);
            var r := Put(Put(Put(p, "funnelNextAction", q.nextAction), "funnelVisualizationType", q.visualization), "segments", ArrOf(q.segments));
            Shape(Put(Put(r, "dimensionFilter", CamelOf(a.dimensionFilter)), "limit", StrOf(Decimal(Some(limit)))))
            == Put(Put(Put(Put(Shape(p), "funnelNextAction", q.nextAction), "funnelVisualizationType", q.visualization),
                       "segments", ArrOf(q.segments)), "dimensionFilter", NonNull(q.dimensionFilter))
  {
    hide Shape, NormalizedSteps, CamelAll, SubOf, ToCamel, ToDecimal, VisualizationOf;
    var q := FunnelQueryOf(a);
    SubIsNotNull("next_action_dimension", a.nextAction);
    VisualizationKept(a.visualization);
    PlainPut(p, "funnelNextAction", q.nextAction);
    var p1 := Put(p, "funnelNextAction", q.nextAction);
    PlainPut(p1, "funnelVisualizationType", q.visualization);
    var p2 := Put(p1, "funnelVisualizationType", q.visualization);
    PlainPut(p2, "segments", ArrOf(q.segments));
    var p3 := Put(p2, "segments", ArrOf(q.segments));
    ShapeOfPut(p3, "dimensionFilter", CamelOf(a.dimensionFilter));
    ShapeOfPut(Put(p3, "dimensionFilter", CamelOf(a.dimensionFilter)), "limit", StrOf(Decimal(Some(limit))));
  }

  /** Whatever its limit, the payload is the query's. */
  lemma FunnelPayloadIsQuery(a: FunnelArgs, limit: nat)
    ensures Shape(FunnelPayload(a, limit)) == FunnelShapeOf(FunnelQueryOf(a))
  {
    var q := FunnelQueryOf(a);
    var p := map["funnel" := FunnelJson(a.isOpen, NormalizedSteps(a.steps)), "returnPropertyQuota" := Bool(a.quota)];
    var dates := if a.dateRanges != [] then Some(Arr(CamelAll(a.dateRanges))) else None;
    hide Shape, NormalizedSteps, CamelAll, SubOf, ToCamel, ToDecimal, VisualizationOf, CamelOf, CamelOrders, NonNull, OrNull, FunnelJson;
    FirstHalf(a, p);
    SecondHalf(a, Put(Put(p, "dateRanges", dates), "funnelBreakdown", q.breakdown), limit);
  }

  lemma FunnelShapeSays(q: FunnelQuery)
    ensures var s := FunnelShapeOf(q);
            && {"funnel", "returnPropertyQuota"} <= s.Keys
            && s["funnel"] == FunnelJson(q.isOpen, q.steps) && s["returnPropertyQuota"] == Bool(q.quota)
  {
    hide FunnelJson, NonNull, ArrOf;
  }

  lemma FunnelShapeSaysDates(q: FunnelQuery)
    ensures var s := FunnelShapeOf(q);
            Field(s, "dateRanges") == DatesOf(q.dateRanges) && Field(s, "funnelBreakdown") == q.breakdown
  {
    hide FunnelJson, NonNull, ArrOf, DatesOf;
  }

  lemma FunnelShapeSaysMore(q: FunnelQuery)
    ensures var s := FunnelShapeOf(q);
            && Field(s, "funnelNextAction") == q.nextAction && Field(s, "funnelVisualizationType") == q.visualization
            && Field(s, "segments") == ArrOf(q.segments) && Field(s, "dimensionFilter") == NonNull(q.dimensionFilter)
  {
    hide FunnelJson, NonNull;
  }

  lemma FunnelJsonInjective(isOpen: bool, steps: seq<Json>, other: bool, others: seq<Json>)
    requires FunnelJson(isOpen, steps) == FunnelJson(other, others)
    ensures isOpen == other && steps == others
  {
    var f, g := FunnelJson(isOpen, steps).fields, FunnelJson(other, others).fields;
    assert f["isOpenFunnel"] == g["isOpenFunnel"] && f["steps"] == g["steps"];
  }

  lemma FunnelShapeInjective(q: FunnelQuery, r: FunnelQuery)
    requires FunnelShapeOf(q) == FunnelShapeOf(r)
    ensures q == r
  {
    hide FunnelJson, FunnelShapeOf;
    FunnelShapeSays(q);
    FunnelShapeSays(r);
    FunnelShapeSaysDates(q);
    FunnelShapeSaysDates(r);
    FunnelShapeSaysMore(q);
    FunnelShapeSaysMore(r);
    FunnelJsonInjective(q.isOpen, q.steps, r.isOpen, r.steps);
  }

  /** Signatures of funnel requests are exact: they are equal exactly when the requests go to one property with one
      payload apart from its limit, a null filter counting as an absent one. */
  lemma FunnelSignatureExact(property: string, a: FunnelArgs, limitA: nat, other: string, b: FunnelArgs, limitB: nat)
    ensures FunnelSignature(property, a) == FunnelSignature(other, b)
            <==> property == other && Shape(FunnelPayload(a, limitA)) == Shape(FunnelPayload(b, limitB))
  {
    hide FunnelSignature, FunnelQueryOf, Shape, FunnelPayload, FunnelShapeOf;
    FunnelSignatureSays(property, a, other, b);
    FunnelPayloadIsQuery(a, limitA);
    FunnelPayloadIsQuery(b, limitB);
    if FunnelShapeOf(FunnelQueryOf(a)) == FunnelShapeOf(FunnelQueryOf(b)) {
      FunnelShapeInjective(FunnelQueryOf(a), FunnelQueryOf(b));
    }
  }

  /** What reading a request makes of its filter: an object, or none. */
  ghost predicate FunnelFilterRead(a: FunnelArgs) { a.dimensionFilter.Some? ==> a.dimensionFilter.value.Obj? }

  lemma FunnelStartsNoNull(a: FunnelArgs)
    ensures NoNull(map["funnel" := FunnelJson(a.isOpen, NormalizedSteps(a.steps)), "returnPropertyQuota" := Bool(a.quota)])
  {
    hide NormalizedSteps;
  }

  lemma FunnelFilterNotNull(a: FunnelArgs)
    requires FunnelFilterRead(a)
    ensures CamelOf(a.dimensionFilter) != Some(Null)
  {}

  lemma ReadFunnelHasNoNull(a: FunnelArgs, limit: nat)
    requires FunnelFilterRead(a)
    ensures Shape(FunnelPayload(a, limit)) == Windowless(FunnelPayload(a, limit))
  {
    hide NormalizedSteps, CamelAll, SubOf, CamelOf, CamelOrders, VisualizationOf, ToDecimal, NoNull, Put, Shape, Windowless, FunnelJson;
    var p0 := map["funnel" := FunnelJson(a.isOpen, NormalizedSteps(a.steps)), "returnPropertyQuota" := Bool(a.quota)];
    FunnelStartsNoNull(a);
    var dates := if a.dateRanges != [] then Some(Arr(CamelAll(a.dateRanges))) else None;
    PutNoNull(p0, "dateRanges", dates);
    var p1 := Put(p0, "dateRanges", dates);
    var breakdown := CamelOf(SubOf("breakdown_dimension", a.breakdown));
    SubIsNotNull("breakdown_dimension", a.breakdown);
    PutNoNull(p1, "funnelBreakdown", breakdown);
    var p2 := Put(p1, "funnelBreakdown", breakdown);
    var next := CamelOf(SubOf("next_action_dimension", a.nextAction));
    SubIsNotNull("next_action_dimension", a.nextAction);
    PutNoNull(p2, "funnelNextAction", next);
    var p3 := Put(p2, "funnelNextAction", next);
    VisualizationKept(a.visualization);
    PutNoNull(p3, "funnelVisualizationType", VisualizationOf(a.visualization));
    var p4 := Put(p3, "funnelVisualizationType", VisualizationOf(a.visualization));
    PutNoNull(p4, "segments", ArrOf(CamelOrders(a.segments)));
    var p5 := Put(p4, "segments", ArrOf(CamelOrders(a.segments)));
    FunnelFilterNotNull(a);
    PutNoNull(p5, "dimensionFilter", CamelOf(a.dimensionFilter));
    var p6 := Put(p5, "dimensionFilter", CamelOf(a.dimensionFilter));
    PutNoNull(p6, "limit", StrOf(Decimal(Some(limit))));
    WindowlessIsShape(FunnelPayload(a, limit));
  }

  /** For funnel requests as they are read the payloads are compared as they are sent, but for the limit. */
  lemma FunnelSignatureExactOnceRead(property: string, a: FunnelArgs, limitA: nat, other: string, b: FunnelArgs, limitB: nat)
    requires FunnelFilterRead(a) && FunnelFilterRead(b)
    ensures FunnelSignature(property, a) == FunnelSignature(other, b)
            <==> property == other && Windowless(FunnelPayload(a, limitA)) == Windowless(FunnelPayload(b, limitB))
  {
    hide FunnelSignature, Windowless, Shape, FunnelPayload;
    FunnelSignatureExact(property, a, limitA, other, b, limitB);
    ReadFunnelHasNoNull(a, limitA);
    ReadFunnelHasNoNull(b, limitB);
  }

  /** Writing one step's event shorthand out changes no signature. */
  lemma ShorthandSignature(property: string, a: FunnelArgs, i: nat, event: string)
    requires i < |a.steps| && a.steps[i].event == Some(event) && a.steps[i].filterExpression.None?
    ensures var long := a.steps[i].(event := None, filterExpression := Some(EventFilter(Str(event))));
            FunnelSignature(property, a) == FunnelSignature(property, a.(steps := a.steps[i := long]))
  {
    var long := a.steps[i].(event := None, filterExpression := Some(EventFilter(Str(event))));
    ShorthandIsExpansion(a.steps[i], event, i);
    hide NormalizeFunnelStep, StepFields, EventFilter, ToCamel;
    var b := a.(steps := a.steps[i := long]);
    assert NormalizedSteps(a.steps) == NormalizedSteps(b.steps);
    hide NormalizedSteps, FunnelSignature, CamelAll, SubOf, CamelOf, CamelOrders, VisualizationOf, OrNull;
    FunnelSignatureSays(property, a, property, b);
  }

  lemma SignedTool(fields: map<string, Json>, tool: string)
    requires "tool" in fields && fields["tool"] == Str(tool) && forall k | k in fields :: Snake(k)
    ensures Field(CamelFields(fields), "tool") == Some(Str(tool))
  {
    hide Snake, CamelFields, CamelKey, ToCamel;
    SnakesApart(fields.Keys);
    FieldsAreRewritten(fields);
    NoUnderscoreKept("tool");
    StrIsKept(tool);
  }

  /** No funnel request shares a signature with a conversions request. */
  lemma ToolsAreToldApart(property: string, a: ConversionsArgs, other: string, b: FunnelArgs)
    ensures ConversionsSignature(property, a) != FunnelSignature(other, b)
  {
    hide Snake, CamelFields, ToCamel, ConversionsFields, FunnelFields;
    FieldKeys(property, a);
    SharedKeys();
    ConversionsKeys();
    FunnelKeysAreSnake(other, b);
    ToolFields(property, a, other, b);
    SignedTool(ConversionsFields(property, a), "run_conversions_report");
    SignedTool(FunnelFields(other, b), "run_funnel_report");
    CamelFieldsAre(ConversionsFields(property, a));
    CamelFieldsAre(FunnelFields(other, b));
    assert "run_conversions_report"[4] != "run_funnel_report"[4];
  }

  lemma ToolFields(property: string, a: ConversionsArgs, other: string, b: FunnelArgs)
    ensures Field(ConversionsFields(property, a), "tool") == Some(Str("run_conversions_report"))
    ensures Field(FunnelFields(other, b), "tool") == Some(Str("run_funnel_report"))
  {
    hide NormalizedSteps, SubOf, VisualizationOf, Strings, Trimmed, SerialisedSpec;
  }
}
