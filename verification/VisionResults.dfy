// What a vision backend returns, and the two measures that bound its size.
module VisionResults {
  import opened JsonValues

  // A value as it is written out. A mapping is held as its fields in the order of their
  // names, so that equal mappings are equal values.
  datatype Dump =
    | Str(text: string)
    | Num(number: real)
    | Flag(value: bool)
    | Nothing
    | List(items: seq<Dump>)
    | Record(fields: seq<Field>)

  datatype Field = Field(name: string, value: Dump)

  datatype Box = Box(xMin: real, yMin: real, xMax: real, yMax: real)

  datatype Warning = Warning(code: string, message: string, details: seq<Field>)

  datatype Reference = Reference(index: nat, description: string)

  // `content` stands for the fields of a payload that normalization does not look into.
  datatype Payload =
    | Caption(text: string, focus: Option<string>)
    | Text(text: string, language: Option<string>, blockKind: string)
    | Detection(content: seq<Field>)
    | Segmentation(content: seq<Field>)
    | Colors(swatches: seq<Dump>)
    | Metadata(content: seq<Field>)
    | MarkDescription(references: seq<Reference>)

  datatype Draft = Draft(payload: Payload, region: Option<Box>, confidence: Option<real>, warnings: seq<Warning>)

  datatype Result = Result(observations: seq<Draft>, warnings: seq<Warning>)

  /******* Writing a result out *******/

  function Optional(name: string, value: Option<string>): (r: seq<Field>)
  {
    if value.None? then [] else [Field(name, Str(value.value))]
  }

  function ReferenceDump(r: Reference): (d: Dump)
  {
    Record([Field("index", Num(r.index as real)), Field("description", Str(r.description))])
  }

  function PayloadDump(p: Payload): (d: Dump)
  {
    match p
    case Caption(text, focus) =>
      Record([Field("type", Str("caption")), Field("text", Str(text))] + Optional("focus", focus))
    case Text(text, language, blockKind) =>
      Record([Field("type", Str("text")), Field("text", Str(text))] + Optional("language", language)
             + [Field("block_kind", Str(blockKind))])
    case Detection(content) => Record([Field("type", Str("detection"))] + content)
    case Segmentation(content) => Record([Field("type", Str("segmentation"))] + content)
    case Colors(swatches) => Record([Field("type", Str("colors")), Field("swatches", List(swatches))])
    case Metadata(content) => Record([Field("type", Str("metadata"))] + content)
    case MarkDescription(references) =>
      Record([Field("type", Str("mark_description")),
              Field("references", List(seq(|references|, i requires 0 <= i < |references| =>
                                             ReferenceDump(references[i]))))])
  }

  function BoxDump(b: Box): (d: Dump)
  {
    Record([Field("x_min", Num(b.xMin)), Field("y_min", Num(b.yMin)),
            Field("x_max", Num(b.xMax)), Field("y_max", Num(b.yMax))])
  }

  function WarningDump(w: Warning): (d: Dump)
  {
    Record([Field("code", Str(w.code)), Field("message", Str(w.message)), Field("details", Record(w.details))])
  }

  function WarningsDump(warnings: seq<Warning>): (d: Dump)
  {
    List(seq(|warnings|, i requires 0 <= i < |warnings| => WarningDump(warnings[i])))
  }

  // Absent values are left out.
  function DraftFields(d: Draft): (r: seq<Field>)
  {
    [Field("payload", PayloadDump(d.payload))]
    + (if d.region.Some? then [Field("region", BoxDump(d.region.value))] else [])
    + (if d.confidence.Some? then [Field("confidence", Num(d.confidence.value))] else [])
  }

  function DraftDump(d: Draft): (r: Dump)
  {
    Record(DraftFields(d) + [Field("warnings", WarningsDump(d.warnings))])
  }

  function DraftsDump(drafts: seq<Draft>): (d: Dump)
  {
    List(seq(|drafts|, i requires 0 <= i < |drafts| => DraftDump(drafts[i])))
  }

  function ResultDump(r: Result): (d: Dump)
  {
    Record([Field("observations", DraftsDump(r.observations)), Field("warnings", WarningsDump(r.warnings))])
  }

  /******* Its size *******/

  function Sum(s: seq<nat>): (n: nat)
  {
    if s == [] then 0 else s[0] + Sum(s[1..])
  }

  // The characters of all strings and all field names.
  function StringSize(d: Dump): (n: nat)
  {
    match d
    case Str(text) => |text|
    case List(items) => Sum(seq(|items|, i requires 0 <= i < |items| => StringSize(items[i])))
    case Record(fields) =>
      Sum(seq(|fields|, i requires 0 <= i < |fields| => |fields[i].name| + StringSize(fields[i].value)))
    case _ => 0
  }

  // The entries of all lists and mappings.
  function NestedItems(d: Dump): (n: nat)
  {
    match d
    case List(items) => |items| + Sum(seq(|items|, i requires 0 <= i < |items| => NestedItems(items[i])))
    case Record(fields) =>
      |fields| + Sum(seq(|fields|, i requires 0 <= i < |fields| => NestedItems(fields[i].value)))
    case _ => 0
  }

  lemma {:induction false} SumOfJoined(a: seq<nat>, b: seq<nat>)
    ensures Sum(a + b) == Sum(a) + Sum(b)
  {
    if a == [] {
      assert a + b == b;
    } else {
      assert (a + b)[1..] == a[1..] + b;
      SumOfJoined(a[1..], b);
    }
  }

  lemma LongerList(items: seq<Dump>, more: Dump)
    ensures StringSize(List(items + [more])) == StringSize(List(items)) + StringSize(more)
  {
    var a := seq(|items|, i requires 0 <= i < |items| => StringSize(items[i]));
    var all := items + [more];
    assert seq(|all|, i requires 0 <= i < |all| => StringSize(all[i])) == a + [StringSize(more)];
    SumOfJoined(a, [StringSize(more)]);
  }

  lemma OneItem(item: Dump)
    ensures StringSize(List([item])) == StringSize(item)
  {
    LongerList([], item);
    assert [] + [item] == [item];
  }

  lemma LongerRecord(fields: seq<Field>, more: Field)
    ensures StringSize(Record(fields + [more])) == StringSize(Record(fields)) + |more.name| + StringSize(more.value)
  {
    var a := seq(|fields|, i requires 0 <= i < |fields| => |fields[i].name| + StringSize(fields[i].value));
    var all := fields + [more];
    var size := |more.name| + StringSize(more.value);
    assert seq(|all|, i requires 0 <= i < |all| => |all[i].name| + StringSize(all[i].value)) == a + [size];
    SumOfJoined(a, [size]);
  }

  lemma PairRecord(a: Field, b: Field)
    ensures StringSize(Record([a, b])) == |a.name| + StringSize(a.value) + |b.name| + StringSize(b.value)
  {
    LongerRecord([], a);
    assert [] + [a] == [a];
    LongerRecord([a], b);
    assert [a] + [b] == [a, b];
  }

  lemma WarningHasText(w: Warning)
    ensures 0 < StringSize(WarningDump(w))
  {
    var code, message := Field("code", Str(w.code)), Field("message", Str(w.message));
    PairRecord(code, message);
    LongerRecord([code, message], Field("details", Record(w.details)));
    assert [code, message] + [Field("details", Record(w.details))] == WarningDump(w).fields;
    assert |"code"| == 4;
  }

  // Another warning makes the draft longer.
  lemma WarningLengthensDraft(d: Draft, w: Warning)
    ensures StringSize(DraftDump(d.(warnings := d.warnings + [w])))
      == StringSize(DraftDump(d)) + StringSize(WarningDump(w))
  {
    var more := d.(warnings := d.warnings + [w]);
    assert WarningsDump(more.warnings).items == WarningsDump(d.warnings).items + [WarningDump(w)];
    LongerList(WarningsDump(d.warnings).items, WarningDump(w));
    assert DraftFields(more) == DraftFields(d);
    LongerRecord(DraftFields(d), Field("warnings", WarningsDump(d.warnings)));
    LongerRecord(DraftFields(d), Field("warnings", WarningsDump(more.warnings)));
  }

  lemma ResultSize(d: Draft, warnings: seq<Warning>)
    ensures StringSize(ResultDump(Result([d], warnings)))
         == |"observations"| + StringSize(DraftDump(d)) + |"warnings"| + StringSize(WarningsDump(warnings))
  {
    PairRecord(Field("observations", DraftsDump([d])), Field("warnings", WarningsDump(warnings)));
    OneItem(DraftDump(d));
    assert DraftsDump([d]).items == [DraftDump(d)];
  }

  // And so the response that holds it.
  lemma WarningLengthensResult(d: Draft, w: Warning, warnings: seq<Warning>)
    ensures 0 < StringSize(ResultDump(Result([d], warnings)))
         < StringSize(ResultDump(Result([d.(warnings := d.warnings + [w])], warnings)))
  {
    ResultSize(d, warnings);
    ResultSize(d.(warnings := d.warnings + [w]), warnings);
    WarningLengthensDraft(d, w);
    WarningHasText(w);
  }
}
