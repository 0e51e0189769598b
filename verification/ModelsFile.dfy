/** The five migration passes over the `.models` file (config/models_settings.py),
    on documents made of one brace, assignment, comment or blank a line. */
module ModelsFile {
  import opened Wrappers

  /** A key `PREFIX_FIELD` of one of the four chat families, the pricing table, or
      any other key. No family's prefix starts with another's, so a key string is
      one of these in one way. */
  datatype Family = Main | Auxiliary | Taskflow | Compression
  datatype Field =
    | ModelLocal | Provider | ApiName | ApiBase | ApiKey
    | MaxToken | MaxOutputToken | FrequencyPenalty | PresencePenalty | OtherField(name: string)
  datatype Key = Of(family: Family, field: Field) | Pricing | Unrelated(name: string)

  /** JSON values; `Raw` is any that is neither integer, string nor boolean. */
  datatype Value = Num(n: int) | Text(s: string) | Flag(b: bool) | Raw(text: string)

  datatype Line =
    | Open
    | Close
    | Assign(indent: string, key: Key, value: Value, comma: bool)
    | Comment(text: string)
    | Blank

  type Doc = seq<Line>
  type Settings = map<Key, Value>

  const LEGACY_FLOOR := 131072
  const FLOOR := 200000
  const FAMILIES: seq<Family> := [Main, Auxiliary, Taskflow, Compression]
  const OPTIONAL_FAMILIES: seq<Family> := [Taskflow, Compression]
  const FAMILY_FIELDS: seq<Field> :=
    [ModelLocal, Provider, ApiName, ApiBase, ApiKey, MaxToken, MaxOutputToken, FrequencyPenalty, PresencePenalty]
  const PRICING_TABLE: string :=
    "{\"glm-5\": {\"input\": 0.5, \"output\": 1.5}, \"deepseek-chat\": {\"input\": 0.14, \"output\": 0.28}, " +
    "\"kimi-latest\": {\"input\": 0.55, \"output\": 2.19}, \"_default\": {\"input\": 0.5, \"output\": 1.5}}"

  /** The typed default of a key the migration may add. */
  function Default(k: Key): Value {
    match k
    case Of(_, MaxToken) => Num(FLOOR)
    case Of(_, ModelLocal) => Flag(false)
    case Of(_, _) => Text("")
    case Pricing => Text(PRICING_TABLE)
    case Unrelated(_) => Text("")
  }

  // ---------------------------------------------------------------- parsing

  /** The parser's state after some lines; `pending` means the last assignment
      had no comma, so another one may not follow. */
  datatype Scan = Before | Inside(data: Settings, pending: bool) | After(data: Settings) | Bad

  function Step(s: Scan, line: Line): Scan {
    if line.Comment? || line.Blank? then s
    else
      match s
      case Before => if line.Open? then Inside(map[], false) else Bad
      case Inside(m, pending) =>
        if line.Close? then After(m)
        else if line.Assign? && !pending && line.key !in m then Inside(m[line.key := line.value], !line.comma)
        else Bad
      case After(_) => Bad
      case Bad => Bad
  }

  function ScanAll(s: Scan, d: Doc): Scan
    decreases |d|
  {
    if d == [] then s else ScanAll(Step(s, d[0]), d[1..])
  }

  /** The object a document holds; a document of another shape does not parse. */
  function Parse(d: Doc): Option<Settings> {
    match ScanAll(Before, d)
    case After(m) => Some(m)
    case _ => None
  }

  // ------------------------------------------- what the passes look for

  /** `asInt` is the conversion of a string to an integer, when there is one. */
  predicate IsLegacy(k: Key, v: Value, asInt: string -> Option<int>) {
    k.Of? && k.field.MaxToken?
    && match v
       case Num(n) => n == LEGACY_FLOOR
       case Text(s) => asInt(s) == Some(LEGACY_FLOOR)
       case _ => false
  }

  predicate HasFamily(m: Settings, f: Family) { exists k :: k in m && k.Of? && k.family == f }
  predicate HasKnownField(m: Settings, f: Family) {
    exists i :: 0 <= i < |FAMILY_FIELDS| && Of(f, FAMILY_FIELDS[i]) in m
  }

  predicate AssignsKey(line: Line, k: Key) { line.Assign? && line.key == k }
  predicate AssignsFamily(line: Line, f: Family) { line.Assign? && line.key.Of? && line.key.family == f }

  /** The first line that assigns a key. */
  function FirstOf(d: Doc, k: Key): (r: Option<nat>)
    ensures r.Some? ==> r.value < |d| && AssignsKey(d[r.value], k)
    ensures r.None? ==> forall i :: 0 <= i < |d| ==> !AssignsKey(d[i], k)
  {
    if d == [] then None
    else if AssignsKey(d[0], k) then Some(0)
    else match FirstOf(d[1..], k)
         case None => None
         case Some(i) => Some(i + 1)
  }

  /** The last line that assigns a key of a family. */
  function LastOf(d: Doc, f: Family): (r: Option<nat>)
    ensures r.Some? ==> r.value < |d| && AssignsFamily(d[r.value], f)
    ensures r.None? ==> forall i :: 0 <= i < |d| ==> !AssignsFamily(d[i], f)
  {
    if d == [] then None
    else if AssignsFamily(d[|d| - 1], f) then Some(|d| - 1)
    else LastOf(d[..|d| - 1], f)
  }

  lemma LastOfNext(d: Doc, f: Family, i: nat)
    requires i < |d|
    ensures LastOf(d[..i + 1], f) == if AssignsFamily(d[i], f) then Some(i) else LastOf(d[..i], f)
  {
    assert d[..i + 1][..i] == d[..i];
  }

  function OpenAt(d: Doc): (r: Option<nat>)
    ensures r.Some? ==> r.value < |d| && d[r.value].Open? && forall i :: 0 <= i < r.value ==> !d[i].Open?
    ensures r.None? ==> forall i :: 0 <= i < |d| ==> !d[i].Open?
  {
    if d == [] then None
    else if d[0].Open? then Some(0)
    else match OpenAt(d[1..])
         case None => None
         case Some(i) => Some(i + 1)
  }

  function WithComma(line: Line): Line { if line.Assign? then line.(comma := true) else line }

  /** Puts lines behind line `i`, which gets its comma. */
  function InsertAfter(d: Doc, i: nat, news: Doc): Doc
    requires i < |d|
  {
    d[..i] + [WithComma(d[i])] + news + d[i + 1..]
  }

  function NewLine(indent: string, k: Key): Line { Assign(indent, k, Default(k), true) }

  // ------------------------------------------------ the passes as functions

  function Refloored(line: Line, m: Settings, asInt: string -> Option<int>): Line {
    if line.Assign? && line.key in m && IsLegacy(line.key, m[line.key], asInt) then line.(value := Num(FLOOR)) else line
  }

  function FloorLines(d: Doc, m: Settings, asInt: string -> Option<int>): (r: Doc)
    ensures |r| == |d|
  {
    if d == [] then [] else FloorLines(d[..|d| - 1], m, asInt) + [Refloored(d[|d| - 1], m, asInt)]
  }

  function FloorPass(d: Doc, asInt: string -> Option<int>): Doc {
    match Parse(d)
    case None => d
    case Some(m) => FloorLines(d, m, asInt)
  }

  function AfterOpen(d: Doc, news: Doc): Doc {
    match OpenAt(d)
    case None => d
    case Some(i) => InsertAfter(d, i, news)
  }

  function PricingPass(d: Doc): Doc {
    match Parse(d)
    case None => d
    case Some(m) => if Pricing in m then d else AfterOpen(d, [NewLine("  ", Pricing)])
  }

  /** One line a key, each with its default and its own comma. */
  function FieldLines(indent: string, f: Family, fields: seq<Field>): Doc {
    if fields == [] then []
    else FieldLines(indent, f, fields[..|fields| - 1]) + [NewLine(indent, Of(f, fields[|fields| - 1]))]
  }

  function FamilyTitle(f: Family): string {
    if f.Taskflow? then "TaskFlow decision model - empty provider/base follows AUXILIARY_LLM_*"
    else "Compression model - empty provider/base follows AUXILIARY_LLM_*"
  }

  function Block(m: Settings, f: Family): Doc {
    if HasKnownField(m, f) then [] else [Comment(FamilyTitle(f))] + FieldLines("  ", f, FAMILY_FIELDS) + [Blank]
  }

  function Blocks(m: Settings, fs: seq<Family>): Doc {
    if fs == [] then [] else Blocks(m, fs[..|fs| - 1]) + Block(m, fs[|fs| - 1])
  }

  function FamilyPass(d: Doc): Doc {
    match Parse(d)
    case None => d
    case Some(m) =>
      var blocks := Blocks(m, OPTIONAL_FAMILIES);
      if blocks == [] then d else AfterOpen(d, blocks + [Blank])
  }

  /** Where a family's new lines go: behind the anchor, else behind its last line. */
  function Target(d: Doc, f: Family, anchor: Option<Field>): (r: Option<nat>)
    ensures r.Some? ==> r.value < |d| && AssignsFamily(d[r.value], f)
  {
    if anchor.Some? && FirstOf(d, Of(f, anchor.value)).Some? then FirstOf(d, Of(f, anchor.value)) else LastOf(d, f)
  }

  function InsertFields(d: Doc, f: Family, anchor: Option<Field>, fields: seq<Field>): Doc {
    match Target(d, f, anchor)
    case None => d
    case Some(i) => InsertAfter(d, i, FieldLines(d[i].indent, f, fields))
  }

  function CapStep(d: Doc, m: Settings, f: Family): Doc {
    if Of(f, MaxOutputToken) in m || !HasFamily(m, f) then d
    else InsertFields(d, f, Some(MaxToken), [MaxOutputToken])
  }

  function CapSteps(d: Doc, m: Settings, n: nat): Doc
    requires n <= |FAMILIES|
  {
    if n == 0 then d else CapStep(CapSteps(d, m, n - 1), m, FAMILIES[n - 1])
  }

  function CapPass(d: Doc): Doc {
    match Parse(d)
    case None => d
    case Some(m) => CapSteps(d, m, |FAMILIES|)
  }

  function MissingPenalties(m: Settings, f: Family): seq<Field> {
    (if Of(f, FrequencyPenalty) in m then [] else [FrequencyPenalty])
    + (if Of(f, PresencePenalty) in m then [] else [PresencePenalty])
  }

  function PenaltyAnchor(m: Settings, f: Family): Option<Field> {
    if Of(f, MaxOutputToken) in m then Some(MaxOutputToken)
    else if Of(f, MaxToken) in m then Some(MaxToken)
    else None
  }

  function PenaltyStep(d: Doc, m: Settings, f: Family): Doc {
    if MissingPenalties(m, f) == [] then d
    else InsertFields(d, f, PenaltyAnchor(m, f), MissingPenalties(m, f))
  }

  function PenaltySteps(d: Doc, m: Settings, n: nat): Doc
    requires n <= |FAMILIES|
  {
    if n == 0 then d else PenaltyStep(PenaltySteps(d, m, n - 1), m, FAMILIES[n - 1])
  }

  function PenaltyPass(d: Doc): Doc {
    match Parse(d)
    case None => d
    case Some(m) => PenaltySteps(d, m, |FAMILIES|)
  }

  function Migrated(d: Doc, asInt: string -> Option<int>): Doc {
    PenaltyPass(CapPass(FamilyPass(PricingPass(FloorPass(d, asInt)))))
  }

  // ---------------------------------------------------------- the operations

  /** The two scans for the line to insert behind. */
  method FindTarget(lines: Doc, f: Family, anchor: Option<Field>) returns (target: Option<nat>)
    ensures target == Target(lines, f, anchor)
  {
    if anchor.Some? {
      var i := 0;
      while i < |lines| && !AssignsKey(lines[i], Of(f, anchor.value))
        invariant i <= |lines| && forall j :: 0 <= j < i ==> !AssignsKey(lines[j], Of(f, anchor.value))
      {
        i := i + 1;
      }
      FirstIs(lines, Of(f, anchor.value), i);
      if i < |lines| { return Some(i); }
    }
    target := None;
    for i := 0 to |lines|
      invariant target == LastOf(lines[..i], f)
    {
      LastOfNext(lines, f, i);
      if AssignsFamily(lines[i], f) { target := Some(i); }
    }
    assert lines[..|lines|] == lines;
  }

  class File {
    var lines: Doc

    constructor (d: Doc)
      ensures lines == d
    {
      lines := d;
    }

    method EnsureContextWindowFloor(asInt: string -> Option<int>)
      modifies this
      ensures lines == FloorPass(old(lines), asInt)
    {
      var data := Parse(lines);
      if data.None? { return; }
      var m := data.value;
      var out: Doc := [];
      for i := 0 to |lines|
        invariant lines == old(lines) && out == FloorLines(lines[..i], m, asInt)
      {
        assert lines[..i + 1][..i] == lines[..i];
        var line := lines[i];
        if line.Assign? && line.key in m && IsLegacy(line.key, m[line.key], asInt) {
          out := out + [line.(value := Num(FLOOR))];
        } else {
          out := out + [line];
        }
      }
      assert lines[..|lines|] == lines;
      lines := out;
    }

    method InsertAfterOpen(news: Doc)
      modifies this
      ensures lines == AfterOpen(old(lines), news)
    {
      var i := 0;
      while i < |lines| && !lines[i].Open?
        invariant i <= |lines| && lines == old(lines) && forall j :: 0 <= j < i ==> !lines[j].Open?
      {
        i := i + 1;
      }
      if i == |lines| { return; }
      lines := lines[..i + 1] + news + lines[i + 1..];
      assert old(lines)[..i + 1] == old(lines)[..i] + [WithComma(old(lines)[i])];
    }

    method EnsurePricingTableKey()
      modifies this
      ensures lines == PricingPass(old(lines))
    {
      var data := Parse(lines);
      if data.None? || Pricing in data.value { return; }
      InsertAfterOpen([NewLine("  ", Pricing)]);
    }

    method EnsureOptionalFamilyKeys()
      modifies this
      ensures lines == FamilyPass(old(lines))
    {
      var data := Parse(lines);
      if data.None? { return; }
      var blocks := FamilyBlocks(data.value, OPTIONAL_FAMILIES);
      if blocks == [] { return; }
      InsertAfterOpen(blocks + [Blank]);
    }

    method InsertFieldsOf(f: Family, anchor: Option<Field>, fields: seq<Field>)
      modifies this
      ensures lines == InsertFields(old(lines), f, anchor, fields)
    {
      var found := FindTarget(lines, f, anchor);
      if found.None? { return; }
      var target := found.value;
      var line := lines[target];
      var insert := LinesFor(line.indent, f, fields);
      if !line.comma { lines := lines[target := line.(comma := true)]; }
      lines := lines[..target + 1] + insert + lines[target + 1..];
      assert lines == InsertAfter(old(lines), target, insert);
    }

    method EnsureOutputCapKeys()
      modifies this
      ensures lines == CapPass(old(lines))
    {
      var data := Parse(lines);
      if data.None? { return; }
      var m := data.value;
      for k := 0 to |FAMILIES|
        invariant lines == CapSteps(old(lines), m, k)
      {
        var f := FAMILIES[k];
        if Of(f, MaxOutputToken) in m { continue; }
        if !HasFamily(m, f) { continue; }
        InsertFieldsOf(f, Some(MaxToken), [MaxOutputToken]);
      }
    }

    method EnsurePenaltyKeys()
      modifies this
      ensures lines == PenaltyPass(old(lines))
    {
      var data := Parse(lines);
      if data.None? { return; }
      var m := data.value;
      for k := 0 to |FAMILIES|
        invariant lines == PenaltySteps(old(lines), m, k)
      {
        var f := FAMILIES[k];
        var missing := MissingPenalties(m, f);
        if missing == [] { continue; }
        InsertFieldsOf(f, PenaltyAnchor(m, f), missing);
      }
    }

    /** The passes over an existing file, in order. */
    method EnsureModelsConfig(asInt: string -> Option<int>)
      modifies this
      ensures lines == Migrated(old(lines), asInt)
    {
      EnsureContextWindowFloor(asInt);
      EnsurePricingTableKey();
      EnsureOptionalFamilyKeys();
      EnsureOutputCapKeys();
      EnsurePenaltyKeys();
    }
  }

  method FamilyBlocks(m: Settings, fs: seq<Family>) returns (blocks: Doc)
    ensures blocks == Blocks(m, fs)
  {
    blocks := [];
    for k := 0 to |fs|
      invariant blocks == Blocks(m, fs[..k])
    {
      assert fs[..k + 1][..k] == fs[..k];
      var f := fs[k];
      if HasKnownField(m, f) { continue; }
      var fields := LinesFor("  ", f, FAMILY_FIELDS);
      blocks := blocks + ([Comment(FamilyTitle(f))] + fields + [Blank]);
    }
    assert fs[..|fs|] == fs;
  }

  method LinesFor(indent: string, f: Family, fields: seq<Field>) returns (news: Doc)
    ensures news == FieldLines(indent, f, fields)
  {
    news := [];
    for j := 0 to |fields|
      invariant news == FieldLines(indent, f, fields[..j])
    {
      assert fields[..j + 1][..j] == fields[..j];
      news := news + [NewLine(indent, Of(f, fields[j]))];
    }
    assert fields[..|fields|] == fields;
  }

  lemma {:induction false} FirstIs(d: Doc, k: Key, i: nat)
    requires i <= |d| && forall j :: 0 <= j < i ==> !AssignsKey(d[j], k)
    requires i < |d| ==> AssignsKey(d[i], k)
    ensures FirstOf(d, k) == if i < |d| then Some(i) else None
    decreases |d|
  {
    if i > 0 { FirstIs(d[1..], k, i - 1); }
  }
}
