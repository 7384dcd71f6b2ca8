/** Query signatures and outbound payloads of conversions and funnel reports (src/tools.rs, src/ga_client.rs). */
module Signatures {
  import opened Basics
  import opened Numerals
  import opened JsonCase

  // ---------- property ids ----------

  datatype PropertyId = Number(n: nat) | Text(text: string)

  function StripPrefix(s: string, prefix: string): Option<string> {
    if prefix <= s then Some(s[|prefix|..]) else None
  }

  /** The number a property id stands for, None when it is refused. */
  function PropertyNumber(id: PropertyId): Option<nat> {
    match id
    case Number(n) => Some(n)
    case Text(text) =>
      var trimmed := Trim(text);
      if ParseU64(trimmed).Some? then ParseU64(trimmed)
      else match StripPrefix(trimmed, "properties/")
           case Some(rest) => ParseU64(rest)
           case None => None
  }

  function ToResourceName(id: PropertyId): Option<string> {
    var n := PropertyNumber(id);
    if n.Some? then Some("properties/" + ToDecimal(n.value)) else None
  }

  lemma ResourceNameNames(a: PropertyId, b: PropertyId)
    ensures ToResourceName(a) == ToResourceName(b) <==> PropertyNumber(a) == PropertyNumber(b)
  {
    hide ToDecimal, PropertyNumber;
    var m, n := PropertyNumber(a), PropertyNumber(b);
    if ToResourceName(a) == ToResourceName(b) && m.Some? && n.Some? {
      var p := "properties/";
      assert (p + ToDecimal(m.value))[|p|..] == ToDecimal(m.value);
      assert (p + ToDecimal(n.value))[|p|..] == ToDecimal(n.value);
      DecimalInjective(m.value, n.value);
    }
  }

  /** Which ids are accepted: a number, or text that is, white space apart, a number or `properties/` and a number. */
  lemma PropertyNumberIs(id: PropertyId, n: nat)
    ensures PropertyNumber(id) == Some(n) <==>
            match id
            case Number(m) => m == n
            case Text(text) =>
              || (exists digits :: WritesU64(Trim(text), digits, n))
              || (exists rest, digits :: Trim(text) == "properties/" + rest && WritesU64(rest, digits, n))
  {
    hide Trim;
    if id.Text? {
      var t, p := Trim(id.text), "properties/";
      ParseIff(t, n);
      if p <= t {
        var rest := t[|p|..];
        assert t == p + rest && t[0] == 'p';
        ParseIff(rest, n);
        assert ParseU64(t).None? by { assert !IsDigit(t[0]) && t[0] != '+'; }
      }
      if rest, digits :| t == p + rest && WritesU64(rest, digits, n) { assert t[..|p|] == p && t[|p|..] == rest; }
      if ParseU64(t).Some? { assert t == "" || IsDigit(t[0]) || t[0] == '+'; }
    }
  }

  lemma ResourceNameIs(id: PropertyId)
    ensures ToResourceName(id).Some? <==> PropertyNumber(id).Some?
    ensures PropertyNumber(id).Some? ==> ToResourceName(id) == Some("properties/" + ToDecimal(PropertyNumber(id).value))
  {}

  // ---------- building objects ----------

  function Put(fields: map<string, Json>, key: string, value: Option<Json>): map<string, Json> {
    if value.Some? then fields[key := value.value] else fields
  }

  function Field(fields: map<string, Json>, key: string): Option<Json> {
    if key in fields then Some(fields[key]) else None
  }

  function OrNull(value: Option<Json>): Json { if value.Some? then value.value else Null }

  function Strings(names: seq<string>): seq<Json> { seq(|names|, i requires 0 <= i < |names| => Str(names[i])) }

  function Trimmed(names: seq<string>): seq<string> { seq(|names|, i requires 0 <= i < |names| => Trim(names[i])) }

  function Named(names: seq<string>): seq<Json> {
    seq(|names|, i requires 0 <= i < |names| => Obj(map["name" := Str(Trim(names[i]))]))
  }

  ghost function CamelAll(items: seq<Json>): seq<Json> {
    seq(|items|, i requires 0 <= i < |items| => ToCamel(items[i]))
  }

  ghost function CamelOf(value: Option<Json>): Option<Json> {
    if value.Some? then Some(ToCamel(value.value)) else None
  }

  function ArrOf(items: Option<seq<Json>>): Option<Json> { if items.Some? then Some(Arr(items.value)) else None }

  function StrOf(value: Option<string>): Option<Json> { if value.Some? then Some(Str(value.value)) else None }

  function Decimal(n: Option<nat>): Option<string> { if n.Some? then Some(ToDecimal(n.value)) else None }

  ghost function CamelOrders(orders: Option<seq<Json>>): Option<seq<Json>> {
    if orders.Some? then Some(CamelAll(orders.value)) else None
  }

  // ---------- conversions reports ----------

  datatype AttributionModel = DataDriven | LastClick {
    function AsStr(): string { match this case DataDriven => "DATA_DRIVEN" case LastClick => "LAST_CLICK" }
  }

  /** The request's arguments that are neither its window nor its output shape. */
  datatype ConversionsArgs = ConversionsArgs(
    dateRanges: seq<Json>,
    dimensions: seq<string>,
    metrics: seq<string>,
    actions: seq<string>,
    attribution: Option<AttributionModel>,
    dimensionFilter: Option<Json>,
    metricFilter: Option<Json>,
    orderBys: Option<seq<Json>>,
    currency: Option<string>,
    quota: bool)

  function Attribution(model: Option<AttributionModel>): Option<Json> {
    if model.Some? then Some(Str(model.value.AsStr())) else None
  }

  function Currency(code: Option<string>): Option<string> { if code.Some? then Some(Trim(code.value)) else None }

  /** The spec as serde writes it: an absent model is a null. */
  function SerialisedSpec(actions: seq<string>, model: Option<AttributionModel>): map<string, Json> {
    map["conversion_actions" := Arr(Strings(actions)), "attribution_model" := OrNull(Attribution(model))]
  }

  function ConversionsFields(property: string, a: ConversionsArgs): map<string, Json> {
    map[
      "tool" := Str("run_conversions_report"),
      "property" := Str(property),
      "date_ranges" := Arr(a.dateRanges),
      "dimensions" := Arr(Strings(Trimmed(a.dimensions))),
      "metrics" := Arr(Strings(Trimmed(a.metrics))),
      "conversion_spec" := Obj(SerialisedSpec(a.actions, a.attribution)),
      "dimension_filter" := OrNull(a.dimensionFilter),
      "metric_filter" := OrNull(a.metricFilter),
      "order_bys" := OrNull(ArrOf(a.orderBys)),
      "currency_code" := OrNull(StrOf(Currency(a.currency))),
      "return_property_quota" := Bool(a.quota)]
  }

  /** The signature before it is serialised and hashed. */
  ghost function ConversionsSignature(property: string, a: ConversionsArgs): Json {
    ToCamel(Obj(ConversionsFields(property, a)))
  }

  ghost function ReportPayload(a: ConversionsArgs, limit: Option<nat>, offset: Option<nat>): map<string, Json> {
    var p := map[
      "dimensions" := Arr(Named(a.dimensions)),
      "metrics" := Arr(Named(a.metrics)),
      "dateRanges" := Arr(CamelAll(a.dateRanges)),
      "returnPropertyQuota" := Bool(a.quota)];
    var p := Put(p, "dimensionFilter", CamelOf(a.dimensionFilter));
    var p := Put(p, "metricFilter", CamelOf(a.metricFilter));
    var p := Put(p, "orderBys", ArrOf(CamelOrders(a.orderBys)));
    var p := Put(p, "limit", StrOf(Decimal(limit)));
    var p := Put(p, "offset", StrOf(Decimal(offset)));
    Put(p, "currencyCode", StrOf(Currency(a.currency)))
  }

  function RequestedSpec(actions: seq<string>, model: Option<AttributionModel>): map<string, Json> {
    Put(map["conversion_actions" := Arr(Strings(actions))], "attribution_model", Attribution(model))
  }

  ghost function ConversionsPayload(a: ConversionsArgs, limit: nat, offset: nat): map<string, Json> {
    ReportPayload(a, Some(limit), Some(offset))["conversionSpec" := ToCamel(Obj(RequestedSpec(a.actions, a.attribution)))]
  }

  lemma SpecIsRewritten(actions: seq<string>, model: Option<AttributionModel>)
    ensures ToCamel(Obj(RequestedSpec(actions, model))) ==
            Obj(Put(map["conversionActions" := Arr(Strings(actions))], "attributionModel",
                    match model
                    case None => None
                    case Some(DataDriven) => Some(Str("DATA_DRIVEN"))
                    case Some(LastClick) => Some(Str("LAST_CLICK"))))
  {
    SpecKeys();
    SpecKeysCamel();
    NoFields();
    var list := Arr(Strings(actions));
    StringsKept(actions);
    hide Snake, ToCamel, CamelKey, Strings;
    var f: map<string, Json> := map[];
    assert f["conversion_actions" := list] == map["conversion_actions" := list];
    assert f["conversionActions" := list] == map["conversionActions" := list];
    RewrittenPut(f, f, "conversion_actions", list);
    if model.Some? {
      var value := Str(model.value.AsStr());
      assert ToCamel(value) == value by { PlainIsKept(value); }
      RewrittenPut(map["conversion_actions" := list], map["conversionActions" := list], "attribution_model", value);
    }
  }

  lemma SpecKeysCamel()
    ensures CamelKey("conversion_actions") == "conversionActions" && CamelKey("attribution_model") == "attributionModel"
  {
    hide CamelKey;
    NoUnderscoreKept("ctions");
    NoUnderscoreKept("odel");
    TwoWords("conversion", 'a', "ctions");
    TwoWords("attribution", 'm', "odel");
    assert "conversion_actions" == "conversion" + "_" + ['a'] + "ctions";
    assert "attribution_model" == "attribution" + "_" + ['m'] + "odel";
  }

  /** The payload field by field: the window as decimal text, ... */
  lemma PayloadWindow(a: ConversionsArgs, limit: nat, offset: nat)
    ensures var p := ConversionsPayload(a, limit, offset);
            Field(p, "limit") == Some(Str(ToDecimal(limit))) && Field(p, "offset") == Some(Str(ToDecimal(offset)))
  {
    hide ToCamel, CamelAll, Trim, ToDecimal, Named, RequestedSpec, CamelOf, CamelOrders, Currency;
  }

  /** ... what is asked for, ... */
  lemma PayloadContents(a: ConversionsArgs, limit: nat, offset: nat)
    ensures var p := ConversionsPayload(a, limit, offset);
            && Field(p, "dimensions") == Some(Arr(Named(a.dimensions)))
            && Field(p, "metrics") == Some(Arr(Named(a.metrics)))
            && Field(p, "dateRanges") == Some(Arr(CamelAll(a.dateRanges)))
            && Field(p, "returnPropertyQuota") == Some(Bool(a.quota))
  {
    hide ToCamel, CamelAll, Trim, ToDecimal, Named, RequestedSpec, CamelOf, CamelOrders, Currency;
  }

  lemma NamedAre(names: seq<string>)
    ensures |Named(names)| == |names|
    ensures forall i | 0 <= i < |names| :: Named(names)[i] == Obj(map["name" := Str(Trim(names[i]))])
  {}

  /** ... and what may be missing. */
  lemma PayloadOptions(a: ConversionsArgs, limit: nat, offset: nat)
    ensures var p := ConversionsPayload(a, limit, offset);
            && Field(p, "dimensionFilter") == CamelOf(a.dimensionFilter)
            && Field(p, "metricFilter") == CamelOf(a.metricFilter)
            && Field(p, "orderBys") == (if a.orderBys.Some? then Some(Arr(CamelAll(a.orderBys.value))) else None)
            && Field(p, "currencyCode") == (if a.currency.Some? then Some(Str(Trim(a.currency.value))) else None)
  {
    hide ToCamel, CamelAll, Trim, ToDecimal, Named, RequestedSpec, CamelOf;
  }

  lemma PayloadSpec(a: ConversionsArgs, limit: nat, offset: nat)
    ensures Field(ConversionsPayload(a, limit, offset), "conversionSpec") ==
            Some(Obj(Put(map["conversionActions" := Arr(Strings(a.actions))], "attributionModel",
                         match a.attribution
                         case None => None
                         case Some(DataDriven) => Some(Str("DATA_DRIVEN"))
                         case Some(LastClick) => Some(Str("LAST_CLICK")))))
  {
    hide ToCamel, ReportPayload, Strings, RequestedSpec;
    SpecIsRewritten(a.actions, a.attribution);
  }

  /** A payload apart from its window; a null field reads as an absent one. */
  function Shape(payload: map<string, Json>): map<string, Json> {
    map k | k in payload && k !in {"limit", "offset"} && payload[k] != Null :: payload[k]
  }

  // ---------- what both of them say ----------

  /** What a conversions request asks, whatever the spelling. */
  datatype ConversionsQuery = ConversionsQuery(
    dateRanges: seq<Json>,
    dimensions: seq<string>,
    metrics: seq<string>,
    actions: seq<string>,
    attribution: Option<AttributionModel>,
    dimensionFilter: Json,
    metricFilter: Json,
    orderBys: Option<seq<Json>>,
    currency: Option<string>,
    quota: bool)

  ghost function QueryOf(a: ConversionsArgs): ConversionsQuery {
    ConversionsQuery(
      CamelAll(a.dateRanges), Trimmed(a.dimensions), Trimmed(a.metrics), a.actions, a.attribution,
      OrNull(CamelOf(a.dimensionFilter)), OrNull(CamelOf(a.metricFilter)),
      CamelOrders(a.orderBys),
      Currency(a.currency), a.quota)
  }

  lemma StringsInjective(a: seq<string>, b: seq<string>)
    requires Strings(a) == Strings(b)
    ensures a == b
  {
    assert |a| == |Strings(a)| == |b|;
    forall i | 0 <= i < |a| ensures a[i] == b[i] { assert Strings(a)[i] == Strings(b)[i]; }
  }

  lemma StringsKept(names: seq<string>)
    ensures ToCamel(Arr(Strings(names))) == Arr(Strings(names))
  {
    PlainIsKept(Arr(Strings(names)));
  }

  lemma SharedKeys()
    ensures Snake("tool") && Snake("property") && Snake("date_ranges") && Snake("dimension_filter")
    ensures Snake("return_property_quota")
  {}

  lemma ConversionsKeys()
    ensures Snake("dimensions") && Snake("metrics") && Snake("conversion_spec")
    ensures Snake("metric_filter") && Snake("order_bys") && Snake("currency_code")
  {}

  lemma SpecKeys()
    ensures Snake("conversion_actions") && Snake("attribution_model")
  {}

  lemma ArrayKept(items: seq<Json>)
    ensures ToCamel(Arr(items)) == Arr(CamelAll(items))
  {
    assert ToCamel(Arr(items)).items == CamelAll(items);
  }

  /** Both forms of the conversion spec tell the actions and the model. */
  lemma SpecsSay(actions: seq<string>, model: Option<AttributionModel>, others: seq<string>, other: Option<AttributionModel>)
    ensures ToCamel(Obj(SerialisedSpec(actions, model))) == ToCamel(Obj(SerialisedSpec(others, other)))
            <==> actions == others && model == other
    ensures ToCamel(Obj(RequestedSpec(actions, model))) == ToCamel(Obj(RequestedSpec(others, other)))
            <==> actions == others && model == other
  {
    hide Snake, ToCamel, Strings;
    SpecKeys();
    SpecIsPlain(actions, model);
    SpecIsPlain(others, other);
    PlainFieldsAgree(SerialisedSpec(actions, model), SerialisedSpec(others, other));
    PlainFieldsAgree(RequestedSpec(actions, model), RequestedSpec(others, other));
    if SerialisedSpec(actions, model) == SerialisedSpec(others, other) { SpecInjective(actions, model, others, other); }
    if RequestedSpec(actions, model) == RequestedSpec(others, other) { SpecInjective(actions, model, others, other); }
  }

  lemma SpecIsPlain(actions: seq<string>, model: Option<AttributionModel>)
    ensures forall k | k in SerialisedSpec(actions, model) :: Plain(SerialisedSpec(actions, model)[k])
    ensures forall k | k in RequestedSpec(actions, model) :: Plain(RequestedSpec(actions, model)[k])
  {}

  lemma SpecInjective(actions: seq<string>, model: Option<AttributionModel>, others: seq<string>, other: Option<AttributionModel>)
    requires SerialisedSpec(actions, model) == SerialisedSpec(others, other)
             || RequestedSpec(actions, model) == RequestedSpec(others, other)
    ensures actions == others && model == other
  {
    hide Strings;
    assert Strings(actions) == Strings(others) by {
      assert SerialisedSpec(actions, model)["conversion_actions"] == RequestedSpec(actions, model)["conversion_actions"];
      assert SerialisedSpec(others, other)["conversion_actions"] == RequestedSpec(others, other)["conversion_actions"];
    }
    StringsInjective(actions, others);
    var k := "attribution_model";
    assert SerialisedSpec(actions, model)[k] == OrNull(Field(RequestedSpec(actions, model), k));
    assert SerialisedSpec(others, other)[k] == OrNull(Field(RequestedSpec(others, other), k));
    assert OrNull(Attribution(model)) == OrNull(Attribution(other));
    ModelsDiffer();
  }

  lemma ModelsDiffer()
    ensures DataDriven.AsStr() != LastClick.AsStr()
  {
    assert DataDriven.AsStr()[0] != LastClick.AsStr()[0];
  }

  lemma {:induction false} OrNullKept(value: Option<Json>)
    ensures ToCamel(OrNull(value)) == OrNull(CamelOf(value))
  {}

  lemma OrdersKept(orders: Option<seq<Json>>)
    ensures ToCamel(OrNull(ArrOf(orders))) == OrNull(ArrOf(CamelOrders(orders)))
  {
    if orders.Some? { ArrayKept(orders.value); }
  }

  /** What the rewrite makes of each field of the signature, the spec apart. */
  lemma FieldsSay(property: string, a: ConversionsArgs)
    ensures var f, q := ConversionsFields(property, a), QueryOf(a);
            && {"tool", "property", "date_ranges", "dimensions", "metrics"} <= f.Keys
            && ToCamel(f["tool"]) == Str("run_conversions_report")
            && ToCamel(f["property"]) == Str(property)
            && ToCamel(f["date_ranges"]) == Arr(q.dateRanges)
            && ToCamel(f["dimensions"]) == Arr(Strings(q.dimensions))
            && ToCamel(f["metrics"]) == Arr(Strings(q.metrics))
  {
    hide Strings, Trimmed, CamelAll, SerialisedSpec, Trim;
    ArrayKept(a.dateRanges);
    StringsKept(Trimmed(a.dimensions));
    StringsKept(Trimmed(a.metrics));
  }

  lemma MoreFieldsSay(property: string, a: ConversionsArgs)
    ensures var f, q := ConversionsFields(property, a), QueryOf(a);
            && {"conversion_spec", "dimension_filter", "metric_filter", "order_bys", "currency_code", "return_property_quota"} <= f.Keys
            && f["conversion_spec"] == Obj(SerialisedSpec(a.actions, a.attribution))
            && ToCamel(f["dimension_filter"]) == q.dimensionFilter
            && ToCamel(f["metric_filter"]) == q.metricFilter
            && ToCamel(f["order_bys"]) == OrNull(ArrOf(q.orderBys))
            && ToCamel(f["currency_code"]) == OrNull(StrOf(q.currency))
            && ToCamel(f["return_property_quota"]) == Bool(q.quota)
  {
    hide Strings, Trimmed, CamelAll, SerialisedSpec, Trim;
    OrNullKept(a.dimensionFilter);
    OrNullKept(a.metricFilter);
    OrdersKept(a.orderBys);
    OrNullKept(StrOf(Currency(a.currency)));
  }

  lemma FieldKeys(property: string, a: ConversionsArgs)
    ensures ConversionsFields(property, a).Keys == {
              "tool", "property", "date_ranges", "dimensions", "metrics", "conversion_spec", "dimension_filter",
              "metric_filter", "order_bys", "currency_code", "return_property_quota"}
  {}

  lemma AgreeingFieldsAskOne(property: string, a: ConversionsArgs, other: string, b: ConversionsArgs)
    requires Agree(ConversionsFields(property, a), ConversionsFields(other, b))
    ensures property == other && QueryOf(a) == QueryOf(b)
  {
    hide ToCamel, Strings, Trimmed, CamelAll, SerialisedSpec, ConversionsFields, Trim;
    FieldsSay(property, a);
    FieldsSay(other, b);
    MoreFieldsSay(property, a);
    MoreFieldsSay(other, b);
    SpecsSay(a.actions, a.attribution, b.actions, b.attribution);
    var q, r := QueryOf(a), QueryOf(b);
    StringsInjective(q.dimensions, r.dimensions);
    StringsInjective(q.metrics, r.metrics);
  }

  lemma AskingOneAgrees(property: string, a: ConversionsArgs, b: ConversionsArgs)
    requires QueryOf(a) == QueryOf(b)
    ensures Agree(ConversionsFields(property, a), ConversionsFields(property, b))
  {
    hide ToCamel, Strings, Trimmed, CamelAll, SerialisedSpec, ConversionsFields, Trim;
    FieldKeys(property, a);
    FieldKeys(property, b);
    FieldsSay(property, a);
    FieldsSay(property, b);
    MoreFieldsSay(property, a);
    MoreFieldsSay(property, b);
    SpecsSay(a.actions, a.attribution, b.actions, b.attribution);
    assert QueryOf(a).actions == a.actions && QueryOf(b).actions == b.actions;
    assert QueryOf(a).attribution == a.attribution && QueryOf(b).attribution == b.attribution;
    hide QueryOf;
  }

  /** Two conversions signatures are equal exactly when both requests ask one property the same query. */
  lemma ConversionsSignatureSays(property: string, a: ConversionsArgs, other: string, b: ConversionsArgs)
    ensures ConversionsSignature(property, a) == ConversionsSignature(other, b)
            <==> property == other && QueryOf(a) == QueryOf(b)
  {
    hide Snake, ToCamel, QueryOf, SerialisedSpec, Strings, Trimmed;
    SharedKeys();
    ConversionsKeys();
    var f, g := ConversionsFields(property, a), ConversionsFields(other, b);
    SnakesApart(f.Keys + g.Keys);
    RewrittenAgree(f, g);
    if Agree(f, g) { AgreeingFieldsAskOne(property, a, other, b); }
    if QueryOf(a) == QueryOf(b) { AskingOneAgrees(property, a, b); }
  }

  function NamedPlain(names: seq<string>): seq<Json> {
    seq(|names|, i requires 0 <= i < |names| => Obj(map["name" := Str(names[i])]))
  }

  function NonNull(value: Json): Option<Json> { if value == Null then None else Some(value) }

  /** The payload a query has, apart from its window. */
  ghost function ShapeOf(q: ConversionsQuery): map<string, Json> {
    var p := map[
      "dimensions" := Arr(NamedPlain(q.dimensions)),
      "metrics" := Arr(NamedPlain(q.metrics)),
      "dateRanges" := Arr(q.dateRanges),
      "returnPropertyQuota" := Bool(q.quota)];
    var p := Put(p, "dimensionFilter", NonNull(q.dimensionFilter));
    var p := Put(p, "metricFilter", NonNull(q.metricFilter));
    var p := Put(p, "orderBys", ArrOf(q.orderBys));
    var p := Put(p, "currencyCode", StrOf(q.currency));
    p["conversionSpec" := ToCamel(Obj(RequestedSpec(q.actions, q.attribution)))]
  }

  lemma ShapeOfPut(p: map<string, Json>, key: string, value: Option<Json>)
    requires key !in p
    ensures Shape(Put(p, key, value)) ==
            if key in {"limit", "offset"} || value.None? then Shape(p) else Put(Shape(p), key, NonNull(value.value))
  {}

  lemma NamedIsPlain(names: seq<string>)
    ensures Named(names) == NamedPlain(Trimmed(names))
  {}

  lemma ObjectIsNotNull(fields: map<string, Json>)
    ensures ToCamel(Obj(fields)) != Null
  {}

  /** Whatever its window, the payload is the query's. */
  lemma PayloadIsQuery(a: ConversionsArgs, limit: nat, offset: nat)
    ensures Shape(ConversionsPayload(a, limit, offset)) == ShapeOf(QueryOf(a))
  {
    hide ToCamel, Trim, ToDecimal, CamelAll, RequestedSpec, Shape, Named, NamedPlain, Trimmed, CamelOf, CamelOrders, StrOf, Decimal;
    NamedIsPlain(a.dimensions);
    NamedIsPlain(a.metrics);
    var p0 := map[
      "dimensions" := Arr(Named(a.dimensions)),
      "metrics" := Arr(Named(a.metrics)),
      "dateRanges" := Arr(CamelAll(a.dateRanges)),
      "returnPropertyQuota" := Bool(a.quota)];
    ShapeOfPlain(p0);
    FilterFields(p0, a);
    var p1 := Put(Put(p0, "dimensionFilter", CamelOf(a.dimensionFilter)), "metricFilter", CamelOf(a.metricFilter));
    WindowFields(p1, a, limit, offset);
    var orders := ArrOf(CamelOrders(a.orderBys));
    var p2 := Put(Put(Put(p1, "orderBys", orders), "limit", StrOf(Decimal(Some(limit)))), "offset", StrOf(Decimal(Some(offset))));
    LastFields(p2, a);
  }

  lemma FilterFields(p: map<string, Json>, a: ConversionsArgs)
    requires "dimensionFilter" !in p && "metricFilter" !in p
    ensures Shape(Put(Put(p, "dimensionFilter", CamelOf(a.dimensionFilter)), "metricFilter", CamelOf(a.metricFilter)))
            == Put(Put(Shape(p), "dimensionFilter", NonNull(QueryOf(a).dimensionFilter)), "metricFilter", NonNull(QueryOf(a).metricFilter))
  {
    hide ToCamel, Shape;
    ShapeOfPut(p, "dimensionFilter", CamelOf(a.dimensionFilter));
    ShapeOfPut(Put(p, "dimensionFilter", CamelOf(a.dimensionFilter)), "metricFilter", CamelOf(a.metricFilter));
  }

  lemma WindowFields(p: map<string, Json>, a: ConversionsArgs, limit: nat, offset: nat)
    requires "orderBys" !in p && "limit" !in p && "offset" !in p
    ensures var orders := ArrOf(CamelOrders(a.orderBys));
            Shape(Put(Put(Put(p, "orderBys", orders), "limit", StrOf(Decimal(Some(limit)))), "offset", StrOf(Decimal(Some(offset)))))
            == Put(Shape(p), "orderBys", orders)
  {
    hide ToCamel, Shape, CamelAll, ToDecimal;
    var orders := ArrOf(CamelOrders(a.orderBys));
    ShapeOfPut(p, "orderBys", orders);
    ShapeOfPut(Put(p, "orderBys", orders), "limit", StrOf(Decimal(Some(limit))));
    ShapeOfPut(Put(Put(p, "orderBys", orders), "limit", StrOf(Decimal(Some(limit)))), "offset", StrOf(Decimal(Some(offset))));
  }

  lemma LastFields(p: map<string, Json>, a: ConversionsArgs)
    requires "currencyCode" !in p && "conversionSpec" !in p
    ensures var spec := ToCamel(Obj(RequestedSpec(a.actions, a.attribution)));
            Shape(Put(p, "currencyCode", StrOf(Currency(a.currency)))["conversionSpec" := spec])
            == Put(Shape(p), "currencyCode", StrOf(Currency(a.currency)))["conversionSpec" := spec]
  {
    hide ToCamel, Shape, RequestedSpec;
    var spec := ToCamel(Obj(RequestedSpec(a.actions, a.attribution)));
    ObjectIsNotNull(RequestedSpec(a.actions, a.attribution));
    ShapeOfPut(p, "currencyCode", StrOf(Currency(a.currency)));
    ShapeOfPut(Put(p, "currencyCode", StrOf(Currency(a.currency))), "conversionSpec", Some(spec));
  }

  lemma ShapeOfPlain(p: map<string, Json>)
    requires p.Keys !! {"limit", "offset"} && forall k | k in p :: p[k] != Null
    ensures Shape(p) == p
  {}

  lemma NamedPlainInjective(a: seq<string>, b: seq<string>)
    requires NamedPlain(a) == NamedPlain(b)
    ensures a == b
  {
    assert |a| == |NamedPlain(a)| == |b|;
    forall i | 0 <= i < |a| ensures a[i] == b[i] {
      assert NamedPlain(a)[i].fields["name"] == NamedPlain(b)[i].fields["name"];
    }
  }

  lemma ShapeSays(q: ConversionsQuery)
    ensures var s := ShapeOf(q);
            && {"dimensions", "metrics", "dateRanges", "returnPropertyQuota", "conversionSpec"} <= s.Keys
            && s["dimensions"] == Arr(NamedPlain(q.dimensions))
            && s["metrics"] == Arr(NamedPlain(q.metrics))
            && s["dateRanges"] == Arr(q.dateRanges)
            && s["returnPropertyQuota"] == Bool(q.quota)
            && s["conversionSpec"] == ToCamel(Obj(RequestedSpec(q.actions, q.attribution)))
  {
    hide ToCamel, NamedPlain, RequestedSpec;
  }

  lemma ShapeSaysMore(q: ConversionsQuery)
    ensures var s := ShapeOf(q);
            && Field(s, "dimensionFilter") == NonNull(q.dimensionFilter)
            && Field(s, "metricFilter") == NonNull(q.metricFilter)
            && Field(s, "orderBys") == ArrOf(q.orderBys)
            && Field(s, "currencyCode") == StrOf(q.currency)
  {
    hide ToCamel, NamedPlain, RequestedSpec;
  }

  lemma ShapeInjective(q: ConversionsQuery, r: ConversionsQuery)
    requires ShapeOf(q) == ShapeOf(r)
    ensures q == r
  {
    hide ToCamel, NamedPlain, RequestedSpec, ShapeOf;
    ShapeSays(q);
    ShapeSays(r);
    ShapeSaysMore(q);
    ShapeSaysMore(r);
    NamedPlainInjective(q.dimensions, r.dimensions);
    NamedPlainInjective(q.metrics, r.metrics);
    SpecsSay(q.actions, q.attribution, r.actions, r.attribution);
  }

  /** Signatures of conversions requests are exact: they are equal exactly when the requests go to one property
      with one payload apart from its window, a null field counting as an absent one. */
  lemma ConversionsSignatureExact(
    property: string, a: ConversionsArgs, limitA: nat, offsetA: nat,
    other: string, b: ConversionsArgs, limitB: nat, offsetB: nat)
    ensures ConversionsSignature(property, a) == ConversionsSignature(other, b)
            <==> property == other
                 && Shape(ConversionsPayload(a, limitA, offsetA)) == Shape(ConversionsPayload(b, limitB, offsetB))
  {
    hide ConversionsSignature, QueryOf, Shape, ConversionsPayload, ShapeOf;
    ConversionsSignatureSays(property, a, other, b);
    PayloadIsQuery(a, limitA, offsetA);
    PayloadIsQuery(b, limitB, offsetB);
    if ShapeOf(QueryOf(a)) == ShapeOf(QueryOf(b)) { ShapeInjective(QueryOf(a), QueryOf(b)); }
  }

  /** What reading a request makes of its filters: a null filter is none (`normalize_optional_filter`). */
  ghost predicate FiltersRead(a: ConversionsArgs) {
    (a.dimensionFilter.Some? ==> a.dimensionFilter.value.Obj?) && (a.metricFilter.Some? ==> a.metricFilter.value.Obj?)
  }

  function Windowless(payload: map<string, Json>): map<string, Json> { payload - {"limit", "offset"} }

  ghost predicate NoNull(p: map<string, Json>) { forall k | k in p :: p[k] != Null }

  lemma PutNoNull(p: map<string, Json>, key: string, value: Option<Json>)
    requires NoNull(p) && value != Some(Null)
    ensures NoNull(Put(p, key, value))
  {}

  lemma WindowlessIsShape(p: map<string, Json>)
    requires NoNull(p)
    ensures Shape(p) == Windowless(p)
  {}

  lemma FirstFieldsNoNull(a: ConversionsArgs)
    ensures NoNull(map[
      "dimensions" := Arr(Named(a.dimensions)),
      "metrics" := Arr(Named(a.metrics)),
      "dateRanges" := Arr(CamelAll(a.dateRanges)),
      "returnPropertyQuota" := Bool(a.quota)])
  {
    hide Named, CamelAll;
  }

  lemma FiltersNotNull(a: ConversionsArgs)
    requires FiltersRead(a)
    ensures CamelOf(a.dimensionFilter) != Some(Null) && CamelOf(a.metricFilter) != Some(Null)
  {}

  lemma ReadPayloadHasNoNull(a: ConversionsArgs, limit: nat, offset: nat)
    requires FiltersRead(a)
    ensures Shape(ConversionsPayload(a, limit, offset)) == Windowless(ConversionsPayload(a, limit, offset))
  {
    FirstFieldsNoNull(a);
    FiltersNotNull(a);
    var spec := ToCamel(Obj(RequestedSpec(a.actions, a.attribution)));
    ObjectIsNotNull(RequestedSpec(a.actions, a.attribution));
    hide ToCamel, CamelAll, Trim, ToDecimal, Named, RequestedSpec, NoNull, Put, CamelOf;
    var p0 := map[
      "dimensions" := Arr(Named(a.dimensions)),
      "metrics" := Arr(Named(a.metrics)),
      "dateRanges" := Arr(CamelAll(a.dateRanges)),
      "returnPropertyQuota" := Bool(a.quota)];
    var p1 := Put(p0, "dimensionFilter", CamelOf(a.dimensionFilter));
    PutNoNull(p0, "dimensionFilter", CamelOf(a.dimensionFilter));
    var p2 := Put(p1, "metricFilter", CamelOf(a.metricFilter));
    PutNoNull(p1, "metricFilter", CamelOf(a.metricFilter));
    var p3 := Put(p2, "orderBys", ArrOf(CamelOrders(a.orderBys)));
    PutNoNull(p2, "orderBys", ArrOf(CamelOrders(a.orderBys)));
    var p4 := Put(p3, "limit", StrOf(Decimal(Some(limit))));
    PutNoNull(p3, "limit", StrOf(Decimal(Some(limit))));
    var p5 := Put(p4, "offset", StrOf(Decimal(Some(offset))));
    PutNoNull(p4, "offset", StrOf(Decimal(Some(offset))));
    var p6 := Put(p5, "currencyCode", StrOf(Currency(a.currency)));
    PutNoNull(p5, "currencyCode", StrOf(Currency(a.currency)));
    assert Put(p6, "conversionSpec", Some(spec)) == p6["conversionSpec" := spec] by { PutSome(p6, "conversionSpec", spec); }
    PutNoNull(p6, "conversionSpec", Some(spec));
    WindowlessIsShape(p6["conversionSpec" := spec]);
  }

  lemma PutSome(p: map<string, Json>, key: string, value: Json)
    ensures Put(p, key, Some(value)) == p[key := value]
  {}

  lemma ConversionsSignatureExactOnceRead(
    property: string, a: ConversionsArgs, limitA: nat, offsetA: nat,
    other: string, b: ConversionsArgs, limitB: nat, offsetB: nat)
    requires FiltersRead(a) && FiltersRead(b)
    ensures ConversionsSignature(property, a) == ConversionsSignature(other, b)
            <==> property == other
                 && Windowless(ConversionsPayload(a, limitA, offsetA)) == Windowless(ConversionsPayload(b, limitB, offsetB))
  {
    hide ConversionsSignature, Windowless, Shape, ConversionsPayload;
    ConversionsSignatureExact(property, a, limitA, offsetA, other, b, limitB, offsetB);
    ReadPayloadHasNoNull(a, limitA, offsetA);
    ReadPayloadHasNoNull(b, limitB, offsetB);
  }

  /** Were a null filter let through, it would be sent but not signed. */
  lemma NullFilterIsUnsigned(property: string, a: ConversionsArgs, limit: nat, offset: nat)
    requires a.dimensionFilter.None?
    ensures var b := a.(dimensionFilter := Some(Null));
            && ConversionsSignature(property, a) == ConversionsSignature(property, b)
            && ConversionsPayload(a, limit, offset) != ConversionsPayload(b, limit, offset)
  {
    hide CamelAll, Trim, ToDecimal, Named, Strings, RequestedSpec, SerialisedSpec;
    var b := a.(dimensionFilter := Some(Null));
    assert ConversionsFields(property, a) == ConversionsFields(property, b);
    assert "dimensionFilter" in ConversionsPayload(b, limit, offset);
    assert "dimensionFilter" !in ConversionsPayload(a, limit, offset);
  }

  lemma CamelAllIdempotent(items: seq<Json>)
    ensures CamelAll(CamelAll(items)) == CamelAll(items)
  {
    forall i | 0 <= i < |items| ensures ToCamel(ToCamel(items[i])) == ToCamel(items[i]) { ToCamelIdempotent(items[i]); }
  }

  lemma CamelOfIdempotent(value: Option<Json>)
    ensures CamelOf(CamelOf(value)) == CamelOf(value)
  {
    if value.Some? { ToCamelIdempotent(value.value); }
  }

  /** A request spelled in snake case and the same request spelled in camel case have one signature. */
  lemma ConversionsSpelling(property: string, a: ConversionsArgs)
    ensures var b := a.(dateRanges := CamelAll(a.dateRanges), dimensionFilter := CamelOf(a.dimensionFilter),
                        metricFilter := CamelOf(a.metricFilter), orderBys := CamelOrders(a.orderBys));
            ConversionsSignature(property, a) == ConversionsSignature(property, b)
  {
    hide ToCamel, CamelAll, CamelOf, ConversionsSignature, Trimmed;
    var b := a.(dateRanges := CamelAll(a.dateRanges), dimensionFilter := CamelOf(a.dimensionFilter),
                metricFilter := CamelOf(a.metricFilter), orderBys := CamelOrders(a.orderBys));
    CamelAllIdempotent(a.dateRanges);
    CamelOfIdempotent(a.dimensionFilter);
    CamelOfIdempotent(a.metricFilter);
    if a.orderBys.Some? { CamelAllIdempotent(a.orderBys.value); }
    ConversionsSignatureSays(property, a, property, b);
  }
}
