/** Where the migration of the `.models` file puts what it adds
    (config/models_settings.py): lines by position. */
module ModelsPlaces {
  import opened Wrappers
  import opened ModelsFile
  import opened ModelsMigration

  /** `r` is `d` with lines put behind line `i`, which ends in a comma then. */
  predicate InsertedBehind(d: Doc, i: nat, news: Doc, r: Doc)
    requires i < |d|
  {
    r == d[..i] + [if d[i].Assign? then d[i].(comma := true) else d[i]] + news + d[i + 1..]
  }

  predicate FirstBrace(d: Doc, i: nat) { i < |d| && d[i] == Open && forall j :: 0 <= j < i ==> d[j] != Open }

  predicate OfFamily(line: Line, f: Family) { line.Assign? && line.key.Of? && line.key.family == f }

  /** The line a family's new keys go behind: the first one with the anchor, else
      the family's last. */
  ghost predicate IsAnchor(d: Doc, f: Family, anchor: Option<Field>, i: nat) {
    && i < |d| && d[i].Assign?
    && if exists j :: 0 <= j < |d| && anchor.Some? && d[j].Assign? && d[j].key == Of(f, anchor.value) then
         && d[i].key == Of(f, anchor.value)
         && (forall j :: 0 <= j < i && d[j].Assign? ==> d[j].key != Of(f, anchor.value))
       else OfFamily(d[i], f) && (forall j :: i < j < |d| ==> !OfFamily(d[j], f))
  }

  lemma {:induction false} FirstOfIsFirst(d: Doc, k: Key)
    ensures FirstOf(d, k).Some? ==> forall j :: 0 <= j < FirstOf(d, k).value ==> !AssignsKey(d[j], k)
  {
    if d != [] {
      FirstOfIsFirst(d[1..], k);
      assert forall j :: 0 < j < |d| ==> d[j] == d[1..][j - 1];
    }
  }

  lemma {:induction false} LastOfIsLast(d: Doc, f: Family)
    ensures LastOf(d, f).Some? ==> forall j :: LastOf(d, f).value < j < |d| ==> !AssignsFamily(d[j], f)
  {
    if d != [] { LastOfIsLast(d[..|d| - 1], f); }
  }

  lemma TargetIsAnchor(d: Doc, f: Family, anchor: Option<Field>)
    requires exists j :: 0 <= j < |d| && OfFamily(d[j], f)
    ensures Target(d, f, anchor).Some? && IsAnchor(d, f, anchor, Target(d, f, anchor).value)
  {
    LastOfIsLast(d, f);
    if anchor.Some? { FirstOfIsFirst(d, Of(f, anchor.value)); }
  }

  /** The line of an added key. */
  function Added(indent: string, k: Key): Line {
    Assign(indent, k, match k
                      case Of(_, MaxToken) => Num(200000)
                      case Of(_, ModelLocal) => Flag(false)
                      case Of(_, _) => Text("")
                      case _ => Text(PRICING_TABLE), true)
  }

  lemma FieldLinesOfTwo(indent: string, f: Family, a: Field, b: Field)
    ensures FieldLines(indent, f, []) == []
    ensures FieldLines(indent, f, [a]) == [NewLine(indent, Of(f, a))]
    ensures FieldLines(indent, f, [a, b]) == [NewLine(indent, Of(f, a)), NewLine(indent, Of(f, b))]
  {
    assert [a][..0] == [] && [a, b][..1] == [a];
  }

  /** A missing output cap goes behind the family's context window. */
  lemma CapPlace(d: Doc, m: Settings, f: Family)
    requires exists j :: 0 <= j < |d| && OfFamily(d[j], f)
    ensures if Of(f, MaxOutputToken) !in m && exists x :: Of(f, x) in m then
              exists i: nat :: IsAnchor(d, f, Some(MaxToken), i)
                          && InsertedBehind(d, i, [Added(d[i].indent, Of(f, MaxOutputToken))], CapStep(d, m, f))
            else CapStep(d, m, f) == d
  {
    TargetIsAnchor(d, f, Some(MaxToken));
    var i := Target(d, f, Some(MaxToken)).value;
    FieldLinesOfTwo(d[i].indent, f, MaxOutputToken, MaxOutputToken);
    if HasFamily(m, f) {
      var k :| k in m && k.Of? && k.family == f;
      assert Of(f, k.field) in m;
    }
  }

  function PenaltyLines(indent: string, m: Settings, f: Family): Doc {
    (if Of(f, FrequencyPenalty) in m then [] else [Added(indent, Of(f, FrequencyPenalty))])
    + (if Of(f, PresencePenalty) in m then [] else [Added(indent, Of(f, PresencePenalty))])
  }

  lemma PenaltyLinesAreMissing(indent: string, m: Settings, f: Family)
    ensures FieldLines(indent, f, MissingPenalties(m, f)) == PenaltyLines(indent, m, f)
    ensures MissingPenalties(m, f) == [] <==> Of(f, FrequencyPenalty) in m && Of(f, PresencePenalty) in m
  {
    FieldLinesOfTwo(indent, f, FrequencyPenalty, PresencePenalty);
    FieldLinesOfTwo(indent, f, PresencePenalty, PresencePenalty);
  }

  /** Missing penalties go behind the output cap, else the context window, else
      the family's last key. */
  lemma PenaltyPlace(d: Doc, m: Settings, f: Family)
    requires exists j :: 0 <= j < |d| && OfFamily(d[j], f)
    ensures var anchor := if Of(f, MaxOutputToken) in m then Some(MaxOutputToken)
                          else if Of(f, MaxToken) in m then Some(MaxToken) else None;
            if Of(f, FrequencyPenalty) in m && Of(f, PresencePenalty) in m then PenaltyStep(d, m, f) == d
            else exists i: nat :: IsAnchor(d, f, anchor, i)
                                  && InsertedBehind(d, i, PenaltyLines(d[i].indent, m, f), PenaltyStep(d, m, f))
  {
    var anchor := PenaltyAnchor(m, f);
    TargetIsAnchor(d, f, anchor);
    PenaltyLinesAreMissing(d[Target(d, f, anchor).value].indent, m, f);
  }

  /** The nine lines of a family that is not there, between a title and a blank. */
  function NineLines(f: Family): Doc {
    [Added("  ", Of(f, ModelLocal)), Added("  ", Of(f, Provider)), Added("  ", Of(f, ApiName)),
     Added("  ", Of(f, ApiBase)), Added("  ", Of(f, ApiKey)), Added("  ", Of(f, MaxToken)),
     Added("  ", Of(f, MaxOutputToken)), Added("  ", Of(f, FrequencyPenalty)), Added("  ", Of(f, PresencePenalty))]
  }

  lemma {:induction false} FieldLinesEach(indent: string, f: Family, fields: seq<Field>)
    ensures |FieldLines(indent, f, fields)| == |fields|
    ensures forall i :: 0 <= i < |fields| ==> FieldLines(indent, f, fields)[i] == Added(indent, Of(f, fields[i]))
  {
    if fields != [] { FieldLinesEach(indent, f, fields[..|fields| - 1]); }
  }

  /** What a family that lacks all nine keys brings. */
  ghost function NewBlock(m: Settings, f: Family): Doc {
    if HasNone(m, f) then [Comment(FamilyTitle(f))] + NineLines(f) + [Blank] else []
  }

  lemma NineLinesInOrder(r: Doc, f: Family)
    requires |r| == |FAMILY_FIELDS| && forall i :: 0 <= i < |r| ==> r[i] == Added("  ", Of(f, FAMILY_FIELDS[i]))
    ensures r == NineLines(f)
  {
  }

  lemma BlockIsNew(m: Settings, f: Family)
    ensures Block(m, f) == NewBlock(m, f)
  {
    KnownFieldIsOfNine(m, f);
    FieldLinesEach("  ", f, FAMILY_FIELDS);
    NineLinesInOrder(FieldLines("  ", f, FAMILY_FIELDS), f);
  }

  lemma AfterOpenPlace(d: Doc, news: Doc)
    requires Parse(d).Some?
    ensures exists i: nat :: FirstBrace(d, i) && InsertedBehind(d, i, news, AfterOpen(d, news))
  {
    if OpenAt(d).None? { NoOpenNoData(Before, d); }
    assert FirstBrace(d, OpenAt(d).value);
  }

  /** The pricing table goes directly behind the opening brace. */
  lemma PricingPlace(d: Doc)
    requires Parse(d).Some?
    ensures if Pricing in Parse(d).value then PricingPass(d) == d
            else exists i: nat :: FirstBrace(d, i) && InsertedBehind(d, i, [Added("  ", Pricing)], PricingPass(d))
  {
    AfterOpenPlace(d, [NewLine("  ", Pricing)]);
  }

  /** So do the missing optional families, Taskflow before Compression. */
  lemma FamilyPlace(d: Doc)
    requires Parse(d).Some?
    ensures var news := NewBlock(Parse(d).value, Taskflow) + NewBlock(Parse(d).value, Compression);
            if news == [] then FamilyPass(d) == d
            else exists i: nat :: FirstBrace(d, i) && InsertedBehind(d, i, news + [Blank], FamilyPass(d))
  {
    var m := Parse(d).value;
    ModelsMigration.FamilyBlocks(m);
    BlockIsNew(m, Taskflow);
    BlockIsNew(m, Compression);
    AfterOpenPlace(d, Blocks(m, OPTIONAL_FAMILIES) + [Blank]);
  }
}
