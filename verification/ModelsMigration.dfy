/** What the migration of a `.models` file guarantees (config/models_settings.py):
    the settings it leaves, its fixed point, and the lines that survive. */
module ModelsMigration {
  import opened Wrappers
  import opened ModelsFile

  // -------------------------------------------------------- the parser's laws

  function DataOf(s: Scan): Settings {
    match s
    case Inside(m, _) => m
    case After(m) => m
    case _ => map[]
  }

  lemma {:induction false} ScanConcat(s: Scan, a: Doc, b: Doc)
    ensures ScanAll(s, a + b) == ScanAll(ScanAll(s, a), b)
    decreases |a|
  {
    if a == [] {
      assert a + b == b;
    } else {
      assert (a + b)[1..] == a[1..] + b;
      ScanConcat(Step(s, a[0]), a[1..], b);
    }
  }

  lemma ScanOne(s: Scan, line: Line)
    ensures ScanAll(s, [line]) == Step(s, line)
  {
    assert [line][1..] == [];
  }

  lemma {:induction false} ScanBad(d: Doc)
    ensures ScanAll(Bad, d) == Bad
  {
    if d != [] { ScanBad(d[1..]); }
  }

  /** Nothing the parser has read is lost or overwritten. */
  lemma {:induction false} ScanGrows(s: Scan, d: Doc)
    requires ScanAll(s, d).After?
    ensures forall k :: k in DataOf(s) ==> k in ScanAll(s, d).data && ScanAll(s, d).data[k] == DataOf(s)[k]
    decreases |d|
  {
    if d != [] {
      if Step(s, d[0]).Bad? { ScanBad(d[1..]); }
      ScanGrows(Step(s, d[0]), d[1..]);
    }
  }

  /** Every assignment of a document that parses is in the result. */
  lemma {:induction false} ScanHasAssigned(s: Scan, d: Doc, i: nat)
    requires ScanAll(s, d).After? && i < |d| && d[i].Assign?
    ensures d[i].key in ScanAll(s, d).data && ScanAll(s, d).data[d[i].key] == d[i].value
    decreases |d|
  {
    if i == 0 {
      if Step(s, d[0]).Bad? { ScanBad(d[1..]); }
      ScanGrows(Step(s, d[0]), d[1..]);
    } else {
      ScanHasAssigned(Step(s, d[0]), d[1..], i - 1);
    }
  }

  /** Every key of the result is assigned on some line. */
  lemma {:induction false} ScanOnlyAssigned(s: Scan, d: Doc, k: Key)
    requires ScanAll(s, d).After? && k in ScanAll(s, d).data && k !in DataOf(s)
    ensures exists i :: 0 <= i < |d| && AssignsKey(d[i], k)
    decreases |d|
  {
    if d != [] {
      if AssignsKey(d[0], k) {
      } else {
        ScanOnlyAssigned(Step(s, d[0]), d[1..], k);
        var i :| 0 <= i < |d[1..]| && AssignsKey(d[1..][i], k);
        assert AssignsKey(d[i + 1], k);
      }
    }
  }

  /** A comma too many does no harm. */
  lemma {:induction false} CommaIsHarmless(m: Settings, d: Doc)
    requires ScanAll(Inside(m, true), d).After?
    ensures ScanAll(Inside(m, false), d) == ScanAll(Inside(m, true), d)
    decreases |d|
  {
    if d != [] {
      if d[0].Comment? || d[0].Blank? {
        CommaIsHarmless(m, d[1..]);
      } else if !d[0].Close? {
        ScanBad(d[1..]);
      }
    }
  }

  function Shift(s: Scan, n: Settings): Scan {
    match s
    case Inside(m, p) => Inside(m + n, p)
    case After(m) => After(m + n)
    case _ => s
  }

  /** Settings read earlier do not disturb what follows, if no key repeats. */
  lemma {:induction false} ScanShift(s: Scan, d: Doc, n: Settings)
    requires (s.Inside? || s.After?) && ScanAll(s, d).After? && n.Keys !! ScanAll(s, d).data.Keys
    ensures ScanAll(Shift(s, n), d) == After(ScanAll(s, d).data + n)
    decreases |d|
  {
    ScanGrows(s, d);
    if d != [] {
      var s1 := Step(s, d[0]);
      if s1.Bad? { ScanBad(d[1..]); }
      ScanGrows(s1, d[1..]);
      assert Step(Shift(s, n), d[0]) == Shift(s1, n) by {
        if d[0].Assign? && s.Inside? {
          assert d[0].key in s1.data;
          assert (s.data + n)[d[0].key := d[0].value] == s1.data + n;
        }
      }
      ScanShift(s1, d[1..], n);
    }
  }

  // ------------------------------------------------------------ insertions

  function DefaultsOf(ks: set<Key>): Settings { map k | k in ks :: Default(k) }

  /** The settings with the missing ones of some keys added. */
  function Gain(m: Settings, ks: set<Key>): Settings { m + DefaultsOf(ks - m.Keys) }

  lemma GainTwice(m: Settings, a: set<Key>, b: set<Key>)
    ensures Gain(Gain(m, a), b) == Gain(m, a + b)
    ensures Gain(m, a).Keys == m.Keys + a
  {
  }

  lemma GainMissing(m: Settings, a: set<Key>, b: set<Key>)
    requires forall k :: k in b && k !in a ==> k in m
    requires a <= b
    ensures Gain(m, a) == Gain(m, b)
  {
  }

  /** Lines that add exactly the keys `ks`, at their defaults, wherever they are
      inserted. */
  ghost predicate Adds(news: Doc, ks: set<Key>) { forall x: Settings :: AddsTo(x, news, ks) }

  ghost predicate AddsTo(x: Settings, news: Doc, ks: set<Key>) {
    x.Keys !! ks ==> ScanAll(Inside(x, false), news) == Inside(Gain(x, ks), false)
  }

  /** The state behind line `i`, with its comma as it is and with one added. */
  lemma BehindLine(d: Doc, i: nat) returns (x: Settings, p: bool)
    requires Parse(d).Some? && i < |d| && (d[i].Assign? || (d[i].Open? && forall j :: 0 <= j < i ==> !d[j].Open?))
    ensures ScanAll(Before, d[..i] + [d[i]]) == Inside(x, p)
    ensures ScanAll(Before, d[..i] + [WithComma(d[i])]) == Inside(x, false)
    ensures ScanAll(Inside(x, p), d[i + 1..]) == After(Parse(d).value)
  {
    var s := ScanAll(Before, d[..i]);
    ScanConcat(Before, d[..i], [d[i]]);
    ScanConcat(Before, d[..i], [WithComma(d[i])]);
    ScanOne(s, d[i]);
    ScanOne(s, WithComma(d[i]));
    assert d == (d[..i] + [d[i]]) + d[i + 1..];
    ScanConcat(Before, d[..i] + [d[i]], d[i + 1..]);
    if Step(s, d[i]).Bad? { ScanBad(d[i + 1..]); }
    x, p := Step(s, d[i]).data, Step(s, d[i]).pending;
  }

  /** Inserting lines for keys that are missing gains exactly those keys. */
  lemma InsertGains(d: Doc, i: nat, news: Doc, ks: set<Key>)
    requires Parse(d).Some? && i < |d| && (d[i].Assign? || (d[i].Open? && forall j :: 0 <= j < i ==> !d[j].Open?))
    requires Adds(news, ks) && ks !! Parse(d).value.Keys
    ensures Parse(InsertAfter(d, i, news)) == Some(Gain(Parse(d).value, ks))
  {
    var x, p := BehindLine(d, i);
    var rest, n := d[i + 1..], DefaultsOf(ks);
    ScanGrows(Inside(x, p), rest);
    if p { CommaIsHarmless(x, rest); }
    var head := d[..i] + [WithComma(d[i])];
    ScanConcat(Before, head, news);
    ScanConcat(Before, head + news, rest);
    assert n.Keys == ks;
    ScanShift(Inside(x, false), rest, n);
    assert AddsTo(x, news, ks) && x.Keys !! ks;
    assert ks - x.Keys == ks && ks - Parse(d).value.Keys == ks;
  }

  lemma AddsNothing(line: Line)
    requires line.Comment? || line.Blank?
    ensures Adds([line], {}) && Adds([], {})
  {
    forall x: Settings ensures AddsTo(x, [line], {}) && AddsTo(x, [], {}) {
      ScanOne(Inside(x, false), line);
      assert Gain(x, {}) == x;
    }
  }

  lemma AddsKey(indent: string, k: Key)
    ensures Adds([NewLine(indent, k)], {k})
  {
    forall x: Settings ensures AddsTo(x, [NewLine(indent, k)], {k}) {
      if x.Keys !! {k} {
        ScanOne(Inside(x, false), NewLine(indent, k));
        assert k in {k} && k !in x;
        assert Gain(x, {k}) == x[k := Default(k)];
      }
    }
  }

  lemma AddsBoth(a: Doc, ks: set<Key>, b: Doc, ls: set<Key>)
    requires Adds(a, ks) && Adds(b, ls) && ks !! ls
    ensures Adds(a + b, ks + ls)
  {
    forall x: Settings ensures AddsTo(x, a + b, ks + ls) {
      if x.Keys !! ks + ls {
        GainTwice(x, ks, ls);
        assert AddsTo(x, a, ks) && AddsTo(Gain(x, ks), b, ls);
        ScanConcat(Inside(x, false), a, b);
      }
    }
  }

  // ---------------------------------------------------------------- settings

  function KeysOf(f: Family, fields: seq<Field>): set<Key> {
    if fields == [] then {} else KeysOf(f, fields[..|fields| - 1]) + {Of(f, fields[|fields| - 1])}
  }

  lemma {:induction false} KeysOfSound(f: Family, fields: seq<Field>, k: Key)
    ensures k in KeysOf(f, fields) <==> k.Of? && k.family == f && k.field in fields
  {
    if fields != [] {
      KeysOfSound(f, fields[..|fields| - 1], k);
      assert fields == fields[..|fields| - 1] + [fields[|fields| - 1]];
    }
  }

  lemma {:induction false} FieldLinesAdd(indent: string, f: Family, fields: seq<Field>)
    requires forall i, j :: 0 <= i < j < |fields| ==> fields[i] != fields[j]
    ensures Adds(FieldLines(indent, f, fields), KeysOf(f, fields))
  {
    if fields == [] {
      AddsNothing(Blank);
    } else {
      var init, k := fields[..|fields| - 1], Of(f, fields[|fields| - 1]);
      FieldLinesAdd(indent, f, init);
      AddsKey(indent, k);
      KeysOfSound(f, init, k);
      AddsBoth(FieldLines(indent, f, init), KeysOf(f, init), [NewLine(indent, k)], {k});
    }
  }

  lemma {:induction false} NoOpenNoData(s: Scan, d: Doc)
    requires s.Before? && forall i :: 0 <= i < |d| ==> !d[i].Open?
    ensures !ScanAll(s, d).After?
    decreases |d|
  {
    if d != [] {
      if Step(s, d[0]).Bad? { ScanBad(d[1..]); } else { NoOpenNoData(Step(s, d[0]), d[1..]); }
    }
  }

  lemma AfterOpenGains(d: Doc, news: Doc, ks: set<Key>)
    requires Parse(d).Some? && Adds(news, ks) && ks !! Parse(d).value.Keys
    ensures Parse(AfterOpen(d, news)) == Some(Gain(Parse(d).value, ks))
  {
    if OpenAt(d).None? { NoOpenNoData(Before, d); }
    InsertGains(d, OpenAt(d).value, news, ks);
  }

  /** Where a family has a key there is a line to insert behind. */
  lemma FamilyHasTarget(d: Doc, f: Family, anchor: Option<Field>)
    requires Parse(d).Some?
    ensures HasFamily(Parse(d).value, f) <==> Target(d, f, anchor).Some?
  {
    var m := Parse(d).value;
    if HasFamily(m, f) {
      var k :| k in m && k.Of? && k.family == f;
      ScanOnlyAssigned(Before, d, k);
    }
    if Target(d, f, anchor).Some? {
      ScanHasAssigned(Before, d, Target(d, f, anchor).value);
    }
  }

  lemma InsertFieldsGains(d: Doc, f: Family, anchor: Option<Field>, fields: seq<Field>)
    requires Parse(d).Some? && KeysOf(f, fields) !! Parse(d).value.Keys
    requires forall i, j :: 0 <= i < j < |fields| ==> fields[i] != fields[j]
    ensures var d1 := InsertFields(d, f, anchor, fields);
            if HasFamily(Parse(d).value, f) then Parse(d1) == Some(Gain(Parse(d).value, KeysOf(f, fields))) else d1 == d
  {
    FamilyHasTarget(d, f, anchor);
    if Target(d, f, anchor).Some? {
      var i := Target(d, f, anchor).value;
      FieldLinesAdd(d[i].indent, f, fields);
      InsertGains(d, i, FieldLines(d[i].indent, f, fields), KeysOf(f, fields));
    }
  }

  // ------------------------------------------------------------ pass by pass

  function Floored(m: Settings, asInt: string -> Option<int>): Settings {
    map k | k in m :: if IsLegacy(k, m[k], asInt) then Num(FLOOR) else m[k]
  }

  lemma {:induction false} FloorScan(d: Doc, m: Settings, asInt: string -> Option<int>)
    requires forall i :: 0 <= i < |d| && d[i].Assign? ==> d[i].key in m && m[d[i].key] == d[i].value
    ensures var s, r := ScanAll(Before, d), ScanAll(Before, FloorLines(d, m, asInt));
            r == match s
                 case Inside(x, p) => Inside(Floored(x, asInt), p)
                 case After(x) => After(Floored(x, asInt))
                 case _ => s
  {
    if d != [] {
      var init, last := d[..|d| - 1], d[|d| - 1];
      FloorScan(init, m, asInt);
      assert d == init + [last];
      ScanConcat(Before, init, [last]);
      ScanConcat(Before, FloorLines(init, m, asInt), [Refloored(last, m, asInt)]);
      ScanOne(ScanAll(Before, init), last);
      ScanOne(ScanAll(Before, FloorLines(init, m, asInt)), Refloored(last, m, asInt));
      assert Floored(map[], asInt) == map[];
      if last.Assign? && ScanAll(Before, init).Inside? {
        FlooredAssign(ScanAll(Before, init).data, last, m, asInt);
      }
    }
  }

  lemma FlooredAssign(x: Settings, line: Line, m: Settings, asInt: string -> Option<int>)
    requires line.Assign? && line.key in m && m[line.key] == line.value
    ensures Floored(x[line.key := line.value], asInt) == Floored(x, asInt)[line.key := Refloored(line, m, asInt).value]
  {
  }

  lemma FloorPassParses(d: Doc, asInt: string -> Option<int>)
    requires Parse(d).Some?
    ensures Parse(FloorPass(d, asInt)) == Some(Floored(Parse(d).value, asInt))
  {
    var m := Parse(d).value;
    forall i | 0 <= i < |d| && d[i].Assign? ensures d[i].key in m && m[d[i].key] == d[i].value {
      ScanHasAssigned(Before, d, i);
    }
    FloorScan(d, m, asInt);
  }

  lemma PricingPassParses(d: Doc)
    requires Parse(d).Some?
    ensures Parse(PricingPass(d)) == Some(Gain(Parse(d).value, {Pricing}))
  {
    var m := Parse(d).value;
    if Pricing in m {
      assert Gain(m, {Pricing}) == m;
    } else {
      AddsKey("  ", Pricing);
      AfterOpenGains(d, [NewLine("  ", Pricing)], {Pricing});
    }
  }

  /** The keys a missing optional family brings. */
  function FamilyGain(m: Settings, f: Family): set<Key> {
    if HasKnownField(m, f) then {} else KeysOf(f, FAMILY_FIELDS)
  }

  lemma BlockAdds(m: Settings, f: Family)
    ensures Adds(Block(m, f), FamilyGain(m, f))
  {
    AddsNothing(Blank);
    if !HasKnownField(m, f) { TitledBlockAdds(f); }
  }

  lemma TitledBlockAdds(f: Family)
    ensures Adds([Comment(FamilyTitle(f))] + FieldLines("  ", f, FAMILY_FIELDS) + [Blank], KeysOf(f, FAMILY_FIELDS))
  {
    var ks, fields, title := KeysOf(f, FAMILY_FIELDS), FieldLines("  ", f, FAMILY_FIELDS), [Comment(FamilyTitle(f))];
    DistinctFields();
    FieldLinesAdd("  ", f, FAMILY_FIELDS);
    AddsNothing(Comment(FamilyTitle(f)));
    AddsNothing(Blank);
    AddsBoth(title, {}, fields, ks);
    assert {} + ks == ks;
    AddsBoth(title + fields, ks, [Blank], {});
    assert ks + {} == ks;
  }

  lemma DistinctFields()
    ensures forall i, j :: 0 <= i < j < |FAMILY_FIELDS| ==> FAMILY_FIELDS[i] != FAMILY_FIELDS[j]
  {
  }

  lemma FamilyGainIsMissing(m: Settings, f: Family, k: Key)
    requires k in FamilyGain(m, f)
    ensures k !in m && k.Of? && k.family == f
  {
    KeysOfSound(f, FAMILY_FIELDS, k);
    var i :| 0 <= i < |FAMILY_FIELDS| && FAMILY_FIELDS[i] == k.field;
  }

  lemma FamilyBlocks(m: Settings)
    ensures Blocks(m, OPTIONAL_FAMILIES) == Block(m, Taskflow) + Block(m, Compression)
  {
    assert OPTIONAL_FAMILIES[..1] == [Taskflow] && [Taskflow][..0] == [];
    assert Blocks(m, [Taskflow]) == [] + Block(m, Taskflow) == Block(m, Taskflow);
  }

  lemma BlocksAdd(m: Settings)
    ensures var ks := FamilyGain(m, Taskflow) + FamilyGain(m, Compression);
            Adds(Blocks(m, OPTIONAL_FAMILIES) + [Blank], ks) && ks !! m.Keys
    ensures Blocks(m, OPTIONAL_FAMILIES) == [] ==> FamilyGain(m, Taskflow) + FamilyGain(m, Compression) == {}
  {
    var t, c := FamilyGain(m, Taskflow), FamilyGain(m, Compression);
    FamilyBlocks(m);
    BlockAdds(m, Taskflow);
    BlockAdds(m, Compression);
    AddsNothing(Blank);
    FamilyGainsApart(m);
    AddsBoth(Block(m, Taskflow), t, Block(m, Compression), c);
    AddsBoth(Block(m, Taskflow) + Block(m, Compression), t + c, [Blank], {});
    assert t + c + {} == t + c;
  }

  lemma FamilyGainsApart(m: Settings)
    ensures FamilyGain(m, Taskflow) !! FamilyGain(m, Compression)
    ensures FamilyGain(m, Taskflow) + FamilyGain(m, Compression) !! m.Keys
  {
    var t, c := FamilyGain(m, Taskflow), FamilyGain(m, Compression);
    forall k | k in t ensures k !in c && k !in m {
      FamilyGainIsMissing(m, Taskflow, k);
      if k in c { FamilyGainIsMissing(m, Compression, k); }
    }
    forall k | k in c ensures k !in m { FamilyGainIsMissing(m, Compression, k); }
  }

  lemma FamilyPassParses(d: Doc)
    requires Parse(d).Some?
    ensures var m := Parse(d).value;
            Parse(FamilyPass(d)) == Some(Gain(m, FamilyGain(m, Taskflow) + FamilyGain(m, Compression)))
  {
    var m := Parse(d).value;
    var ks := FamilyGain(m, Taskflow) + FamilyGain(m, Compression);
    BlocksAdd(m);
    if Blocks(m, OPTIONAL_FAMILIES) == [] {
      assert Gain(m, ks) == m;
    } else {
      AfterOpenGains(d, Blocks(m, OPTIONAL_FAMILIES) + [Blank], ks);
    }
  }

  /** The keys of the first `n` families that the cap and penalty passes see to. */
  function CapGain(m: Settings, n: nat): set<Key>
    requires n <= |FAMILIES|
  {
    if n == 0 then {}
    else CapGain(m, n - 1) + if HasFamily(m, FAMILIES[n - 1]) then KeysOf(FAMILIES[n - 1], [MaxOutputToken]) else {}
  }

  function PenaltyGain(m: Settings, n: nat): set<Key>
    requires n <= |FAMILIES|
  {
    if n == 0 then {}
    else PenaltyGain(m, n - 1)
         + if HasFamily(m, FAMILIES[n - 1]) then KeysOf(FAMILIES[n - 1], [FrequencyPenalty, PresencePenalty]) else {}
  }

  lemma {:induction false} GainsSound(m: Settings, n: nat, k: Key)
    requires n <= |FAMILIES|
    ensures k in CapGain(m, n) <==>
            k.Of? && k.family in FAMILIES[..n] && HasFamily(m, k.family) && k.field.MaxOutputToken?
    ensures k in PenaltyGain(m, n) <==>
            k.Of? && k.family in FAMILIES[..n] && HasFamily(m, k.family)
            && (k.field.FrequencyPenalty? || k.field.PresencePenalty?)
  {
    if n > 0 {
      GainsSound(m, n - 1, k);
      assert FAMILIES[..n] == FAMILIES[..n - 1] + [FAMILIES[n - 1]];
      KeysOfSound(FAMILIES[n - 1], [MaxOutputToken], k);
      KeysOfSound(FAMILIES[n - 1], [FrequencyPenalty, PresencePenalty], k);
    }
  }

  lemma {:induction false} CapStepsParse(d: Doc, n: nat)
    requires Parse(d).Some? && n <= |FAMILIES|
    ensures var m := Parse(d).value; Parse(CapSteps(d, m, n)) == Some(Gain(m, CapGain(m, n)))
  {
    var m := Parse(d).value;
    if n == 0 {
      assert Gain(m, {}) == m;
    } else {
      CapStepsParse(d, n - 1);
      var f, d1, done := FAMILIES[n - 1], CapSteps(d, m, n - 1), CapGain(m, n - 1);
      var ks := KeysOf(f, [MaxOutputToken]);
      forall k ensures k in ks <==> k == Of(f, MaxOutputToken) { KeysOfSound(f, [MaxOutputToken], k); }
      if !HasFamily(m, f) {
        assert CapGain(m, n) == done;
      } else if Of(f, MaxOutputToken) in m {
        GainMissing(m, done, done + ks);
      } else {
        GainsSound(m, n - 1, Of(f, MaxOutputToken));
        assert f !in FAMILIES[..n - 1];
        InsertFieldsGains(d1, f, Some(MaxToken), [MaxOutputToken]);
        GainTwice(m, done, ks);
        assert HasFamily(Gain(m, done), f) by {
          var k :| k in m && k.Of? && k.family == f;
          assert k in Gain(m, done);
        }
      }
    }
  }

  lemma MissingKeys(m: Settings, f: Family, k: Key)
    ensures k in KeysOf(f, MissingPenalties(m, f))
            <==> k !in m && (k == Of(f, FrequencyPenalty) || k == Of(f, PresencePenalty))
  {
    KeysOfSound(f, MissingPenalties(m, f), k);
  }

  lemma PenaltyKeys(m: Settings, n: nat, k: Key)
    requires 0 < n <= |FAMILIES|
    ensures var f := FAMILIES[n - 1];
            var missing, ks := KeysOf(f, MissingPenalties(m, f)), KeysOf(f, [FrequencyPenalty, PresencePenalty]);
            (k in missing <==> k !in m && k in ks) && !(k in ks && k in PenaltyGain(m, n - 1))
  {
    var f := FAMILIES[n - 1];
    MissingKeys(m, f, k);
    KeysOfSound(f, [FrequencyPenalty, PresencePenalty], k);
    GainsSound(m, n - 1, k);
    assert f !in FAMILIES[..n - 1];
  }

  lemma PenaltyStepGains(d: Doc, m: Settings, n: nat)
    requires 0 < n <= |FAMILIES| && Parse(d) == Some(Gain(m, PenaltyGain(m, n - 1)))
    ensures var f := FAMILIES[n - 1];
            var d1 := PenaltyStep(d, m, f);
            if HasFamily(m, f) then Parse(d1) == Some(Gain(Parse(d).value, KeysOf(f, MissingPenalties(m, f))))
            else d1 == d
  {
    var f := FAMILIES[n - 1];
    var missing := KeysOf(f, MissingPenalties(m, f));
    FamilyStays(m, PenaltyGain(m, n - 1), f, n - 1);
    GainTwice(m, PenaltyGain(m, n - 1), missing);
    forall k ensures !(k in missing && k in Parse(d).value) { PenaltyKeys(m, n, k); }
    if MissingPenalties(m, f) != [] {
      InsertFieldsGains(d, f, PenaltyAnchor(m, f), MissingPenalties(m, f));
    } else {
      assert Gain(Parse(d).value, {}) == Parse(d).value;
    }
  }

  lemma {:induction false} PenaltyStepsParse(d: Doc, n: nat)
    requires Parse(d).Some? && n <= |FAMILIES|
    ensures var m := Parse(d).value; Parse(PenaltySteps(d, m, n)) == Some(Gain(m, PenaltyGain(m, n)))
  {
    var m := Parse(d).value;
    if n == 0 {
      assert Gain(m, {}) == m;
    } else {
      PenaltyStepsParse(d, n - 1);
      PenaltyStepGains(PenaltySteps(d, m, n - 1), m, n);
      PenaltyGainNext(m, n);
    }
  }

  lemma PenaltyGainNext(m: Settings, n: nat)
    requires 0 < n <= |FAMILIES|
    ensures var f, done := FAMILIES[n - 1], PenaltyGain(m, n - 1);
            Gain(m, PenaltyGain(m, n))
            == if HasFamily(m, f) then Gain(Gain(m, done), KeysOf(f, MissingPenalties(m, f))) else Gain(m, done)
  {
    var f, done := FAMILIES[n - 1], PenaltyGain(m, n - 1);
    if HasFamily(m, f) { MissingIsEnough(m, f, done); }
  }

  lemma MissingIsEnough(m: Settings, f: Family, done: set<Key>)
    ensures Gain(Gain(m, done), KeysOf(f, MissingPenalties(m, f)))
            == Gain(m, done + KeysOf(f, [FrequencyPenalty, PresencePenalty]))
  {
    var missing, ks := KeysOf(f, MissingPenalties(m, f)), KeysOf(f, [FrequencyPenalty, PresencePenalty]);
    forall k ensures k in missing <==> k !in m && k in ks {
      MissingKeys(m, f, k);
      KeysOfSound(f, [FrequencyPenalty, PresencePenalty], k);
    }
    GainTwice(m, done, missing);
    GainMissing(m, done + missing, done + ks);
  }

  lemma FamilyStays(m: Settings, done: set<Key>, f: Family, n: nat)
    requires n <= |FAMILIES| && done == PenaltyGain(m, n)
    ensures HasFamily(Gain(m, done), f) <==> HasFamily(m, f)
  {
    if HasFamily(m, f) {
      var k :| k in m && k.Of? && k.family == f;
      assert k in Gain(m, done);
    }
    if HasFamily(Gain(m, done), f) {
      var k :| k in Gain(m, done) && k.Of? && k.family == f;
      GainsSound(m, n, k);
    }
  }

  // --------------------------------------------------------- the whole run

  predicate IsOptional(f: Family) { f.Taskflow? || f.Compression? }

  /** The keys that belong in a migrated file: the pricing table; a whole
      optional family of which no known key is there; and the output cap and the
      penalties of every family that is there. */
  predicate Belongs(m: Settings, k: Key) {
    match k
    case Pricing => true
    case Unrelated(_) => false
    case Of(f, x) =>
      || (IsOptional(f) && !HasKnownField(m, f) && x in FAMILY_FIELDS)
      || ((IsOptional(f) || HasFamily(m, f)) && (x.MaxOutputToken? || x.FrequencyPenalty? || x.PresencePenalty?))
  }

  function AllKeys(): set<Key> {
    {Pricing} + KeysOf(Main, FAMILY_FIELDS) + KeysOf(Auxiliary, FAMILY_FIELDS)
    + KeysOf(Taskflow, FAMILY_FIELDS) + KeysOf(Compression, FAMILY_FIELDS)
  }

  lemma AllKeysSound(k: Key)
    ensures k in AllKeys() <==> k.Pricing? || (k.Of? && k.field in FAMILY_FIELDS)
  {
    KeysOfSound(Main, FAMILY_FIELDS, k);
    KeysOfSound(Auxiliary, FAMILY_FIELDS, k);
    KeysOfSound(Taskflow, FAMILY_FIELDS, k);
    KeysOfSound(Compression, FAMILY_FIELDS, k);
  }

  function Belonging(m: Settings): set<Key> { set k | k in AllKeys() && Belongs(m, k) }

  /** The settings after the migration. */
  function Final(m: Settings, asInt: string -> Option<int>): Settings { Gain(Floored(m, asInt), Belonging(m)) }

  lemma PricingIsNoFamily(m: Settings, f: Family)
    ensures HasFamily(Gain(m, {Pricing}), f) <==> HasFamily(m, f)
    ensures HasKnownField(Gain(m, {Pricing}), f) <==> HasKnownField(m, f)
  {
    var o := Gain(m, {Pricing});
    if HasFamily(m, f) {
      var k :| k in m && k.Of? && k.family == f;
      assert k in o;
    }
    if HasFamily(o, f) {
      var k :| k in o && k.Of? && k.family == f;
      assert k in m;
    }
  }

  lemma FamiliesAfterBlocks(m: Settings, f: Family)
    ensures HasFamily(Gain(m, FamilyGain(m, Taskflow) + FamilyGain(m, Compression)), f)
            <==> IsOptional(f) || HasFamily(m, f)
  {
    var ks := FamilyGain(m, Taskflow) + FamilyGain(m, Compression);
    var o := Gain(m, ks);
    if HasFamily(m, f) {
      var k :| k in m && k.Of? && k.family == f;
      assert k in o;
    } else if IsOptional(f) {
      KeysOfSound(f, FAMILY_FIELDS, Of(f, ModelLocal));
      assert Of(f, ModelLocal) in o;
    }
    if HasFamily(o, f) {
      var k :| k in o && k.Of? && k.family == f;
      KeysOfSound(Taskflow, FAMILY_FIELDS, k);
      KeysOfSound(Compression, FAMILY_FIELDS, k);
      assert k in m || IsOptional(f);
    }
  }

  lemma CapsAddNoFamily(m: Settings, f: Family)
    ensures HasFamily(Gain(m, CapGain(m, |FAMILIES|)), f) <==> HasFamily(m, f)
  {
    var o := Gain(m, CapGain(m, |FAMILIES|));
    if HasFamily(m, f) {
      var k :| k in m && k.Of? && k.family == f;
      assert k in o;
    }
    if HasFamily(o, f) {
      var k :| k in o && k.Of? && k.family == f;
      GainsSound(m, |FAMILIES|, k);
    }
  }

  lemma EveryFamily(f: Family)
    ensures f in FAMILIES[..|FAMILIES|]
  {
    assert FAMILIES[..|FAMILIES|] == FAMILIES;
    assert FAMILIES[0] == Main && FAMILIES[1] == Auxiliary && FAMILIES[2] == Taskflow && FAMILIES[3] == Compression;
  }

  lemma PassesGainKey(m: Settings, k: Key)
    ensures var m2 := Gain(m, {Pricing});
            var blocks := FamilyGain(m2, Taskflow) + FamilyGain(m2, Compression);
            var m3 := Gain(m2, blocks);
            var m4 := Gain(m3, CapGain(m3, |FAMILIES|));
            k in {Pricing} + blocks + CapGain(m3, |FAMILIES|) + PenaltyGain(m4, |FAMILIES|) <==> k in Belonging(m)
  {
    var m2 := Gain(m, {Pricing});
    var m3 := Gain(m2, FamilyGain(m2, Taskflow) + FamilyGain(m2, Compression));
    var m4 := Gain(m3, CapGain(m3, |FAMILIES|));
    AllKeysSound(k);
    KeysOfSound(Taskflow, FAMILY_FIELDS, k);
    KeysOfSound(Compression, FAMILY_FIELDS, k);
    GainsSound(m3, |FAMILIES|, k);
    GainsSound(m4, |FAMILIES|, k);
    PricingIsNoFamily(m, Taskflow);
    PricingIsNoFamily(m, Compression);
    if k.Of? {
      EveryFamily(k.family);
      PricingIsNoFamily(m, k.family);
      FamiliesAfterBlocks(m2, k.family);
      CapsAddNoFamily(m3, k.family);
    }
  }

  /** The four inserting passes together gain exactly the keys that belong. */
  lemma PassesGainBelonging(m: Settings)
    ensures var m2 := Gain(m, {Pricing});
            var m3 := Gain(m2, FamilyGain(m2, Taskflow) + FamilyGain(m2, Compression));
            var m4 := Gain(m3, CapGain(m3, |FAMILIES|));
            Gain(m4, PenaltyGain(m4, |FAMILIES|)) == Gain(m, Belonging(m))
  {
    var m2 := Gain(m, {Pricing});
    var blocks := FamilyGain(m2, Taskflow) + FamilyGain(m2, Compression);
    var m3 := Gain(m2, blocks);
    var caps := CapGain(m3, |FAMILIES|);
    var penalties := PenaltyGain(Gain(m3, caps), |FAMILIES|);
    forall k ensures k in {Pricing} + blocks + caps + penalties <==> k in Belonging(m) { PassesGainKey(m, k); }
    GainFour(m, {Pricing}, blocks, caps, penalties, Belonging(m));
  }

  lemma GainFour(m: Settings, a: set<Key>, b: set<Key>, c: set<Key>, d: set<Key>, all: set<Key>)
    requires forall k :: k in a + b + c + d <==> k in all
    ensures Gain(Gain(Gain(Gain(m, a), b), c), d) == Gain(m, all)
  {
    GainTwice(m, a, b);
    GainTwice(m, a + b, c);
    GainTwice(m, a + b + c, d);
    assert a + b + c + d == all;
  }

  lemma FlooredBelongs(m: Settings, asInt: string -> Option<int>)
    ensures Belonging(Floored(m, asInt)) == Belonging(m)
  {
    assert forall k :: Belongs(Floored(m, asInt), k) <==> Belongs(m, k);
  }

  /** The migration of a document that parses yields one that parses, with every
      key it had - the legacy floor raised, every other value kept - and exactly
      the missing keys that belong there, at their defaults. Any other document
      is left alone. */
  lemma MigrationIsSound(d: Doc, asInt: string -> Option<int>)
    ensures Parse(d).Some? ==> Parse(Migrated(d, asInt)) == Some(Final(Parse(d).value, asInt))
    ensures Parse(d).None? ==> Migrated(d, asInt) == d
  {
    if Parse(d).Some? {
      var d1 := FloorPass(d, asInt);
      FloorPassParses(d, asInt);
      var d2 := PricingPass(d1);
      PricingPassParses(d1);
      var d3 := FamilyPass(d2);
      FamilyPassParses(d2);
      var d4 := CapPass(d3);
      CapStepsParse(d3, |FAMILIES|);
      PenaltyStepsParse(d4, |FAMILIES|);
      PassesGainBelonging(Floored(Parse(d).value, asInt));
      FlooredBelongs(Parse(d).value, asInt);
    }
  }

  /** The one value that is rewritten: the context window that was once the floor. */
  predicate AtOldFloor(k: Key, v: Value, asInt: string -> Option<int>) {
    k.Of? && k.field == MaxToken && (v == Num(131072) || (v.Text? && asInt(v.s) == Some(131072)))
  }

  /** The same, key by key: a context window of exactly 131072, as a number or a
      string, becomes 200000 and every other value stays; what is added is the
      pricing table, the nine keys of an optional family of which none is there,
      and the output cap and the penalties of every family that then is. */
  lemma SettingsAfterMigration(d: Doc, asInt: string -> Option<int>, k: Key)
    requires Parse(d).Some?
    ensures Parse(Migrated(d, asInt)).Some?
    ensures var m, r := Parse(d).value, Parse(Migrated(d, asInt)).value;
            && (k in m ==> k in r && r[k] == if AtOldFloor(k, m[k], asInt) then Num(200000) else m[k])
            && (k !in m ==> (k in r <==> IsAdded(m, k)))
            && (k !in m && k in r ==>
                  r[k] == match k
                          case Of(_, MaxToken) => Num(200000)
                          case Of(_, ModelLocal) => Flag(false)
                          case Of(_, _) => Text("")
                          case _ => Text(PRICING_TABLE))
  {
    MigrationIsSound(d, asInt);
    AllKeysSound(k);
    if k.Of? { BelongsIsAdded(Parse(d).value, k); }
  }

  const NINE_FIELDS: set<Field> :=
    {ModelLocal, Provider, ApiName, ApiBase, ApiKey, MaxToken, MaxOutputToken, FrequencyPenalty, PresencePenalty}

  ghost predicate HasNone(m: Settings, f: Family) { forall x :: x in NINE_FIELDS ==> Of(f, x) !in m }

  ghost predicate IsAdded(m: Settings, k: Key) {
    match k
    case Pricing => true
    case Unrelated(_) => false
    case Of(f, x) =>
      var optional := f == Taskflow || f == Compression;
      || (optional && HasNone(m, f) && x in NINE_FIELDS)
      || ((optional || exists y :: Of(f, y) in m) && x in {MaxOutputToken, FrequencyPenalty, PresencePenalty})
  }

  lemma NineFields(x: Field)
    ensures x in FAMILY_FIELDS <==> x in NINE_FIELDS
  {
    assert FAMILY_FIELDS[0] == ModelLocal && FAMILY_FIELDS[1] == Provider && FAMILY_FIELDS[2] == ApiName;
    assert FAMILY_FIELDS[3] == ApiBase && FAMILY_FIELDS[4] == ApiKey && FAMILY_FIELDS[5] == MaxToken;
    assert FAMILY_FIELDS[6] == MaxOutputToken && FAMILY_FIELDS[7] == FrequencyPenalty;
    assert FAMILY_FIELDS[8] == PresencePenalty;
  }

  lemma KnownFieldIsOfNine(m: Settings, f: Family)
    ensures HasNone(m, f) <==> !HasKnownField(m, f)
  {
    if HasKnownField(m, f) {
      var i :| 0 <= i < |FAMILY_FIELDS| && Of(f, FAMILY_FIELDS[i]) in m;
      assert FAMILY_FIELDS[i] in FAMILY_FIELDS;
      NineFields(FAMILY_FIELDS[i]);
    }
    if !HasNone(m, f) {
      var x :| x in NINE_FIELDS && Of(f, x) in m;
      NineFields(x);
      assert x in FAMILY_FIELDS;
      var i :| 0 <= i < |FAMILY_FIELDS| && FAMILY_FIELDS[i] == x;
    }
  }

  lemma BelongsIsAdded(m: Settings, k: Key)
    requires k.Of?
    ensures Belongs(m, k) <==> IsAdded(m, k)
  {
    NineFields(k.field);
    KnownFieldIsOfNine(m, k.family);
    if HasFamily(m, k.family) {
      var key :| key in m && key.Of? && key.family == k.family;
      assert Of(k.family, key.field) in m;
    }
  }

  // ------------------------------------------------------------ fixed point

  lemma {:induction false} NothingToRefloor(d: Doc, m: Settings, asInt: string -> Option<int>)
    requires forall k :: k in m ==> !IsLegacy(k, m[k], asInt)
    ensures FloorLines(d, m, asInt) == d
  {
    if d != [] { NothingToRefloor(d[..|d| - 1], m, asInt); }
  }

  lemma {:induction false} NothingToCap(d: Doc, m: Settings, n: nat)
    requires n <= |FAMILIES| && forall f :: HasFamily(m, f) ==> Of(f, MaxOutputToken) in m
    ensures CapSteps(d, m, n) == d
  {
    if n > 0 { NothingToCap(d, m, n - 1); }
  }

  lemma {:induction false} NothingToPenalize(d: Doc, n: nat)
    requires Parse(d).Some? && n <= |FAMILIES|
    requires forall f :: HasFamily(Parse(d).value, f) ==> MissingPenalties(Parse(d).value, f) == []
    ensures PenaltySteps(d, Parse(d).value, n) == d
  {
    if n > 0 {
      NothingToPenalize(d, n - 1);
      FamilyHasTarget(d, FAMILIES[n - 1], PenaltyAnchor(Parse(d).value, FAMILIES[n - 1]));
    }
  }

  /** Nothing is missing and nothing is at the legacy floor. */
  ghost predicate IsComplete(m: Settings, asInt: string -> Option<int>) {
    && Pricing in m && HasKnownField(m, Taskflow) && HasKnownField(m, Compression)
    && (forall k :: k in m ==> !AtOldFloor(k, m[k], asInt))
    && (forall f :: HasFamily(m, f) ==> Of(f, MaxOutputToken) in m && MissingPenalties(m, f) == [])
  }

  lemma FamilyIsComplete(m: Settings, asInt: string -> Option<int>, f: Family)
    ensures IsOptional(f) ==> HasKnownField(Final(m, asInt), f)
    ensures HasFamily(Final(m, asInt), f) ==>
              Of(f, MaxOutputToken) in Final(m, asInt) && MissingPenalties(Final(m, asInt), f) == []
  {
    var r := Final(m, asInt);
    AllKeysSound(Of(f, MaxOutputToken));
    AllKeysSound(Of(f, FrequencyPenalty));
    AllKeysSound(Of(f, PresencePenalty));
    if HasFamily(r, f) {
      var k :| k in r && k.Of? && k.family == f;
      assert k in m ==> HasFamily(m, f);
    }
    if IsOptional(f) {
      assert Of(f, MaxOutputToken) in r && FAMILY_FIELDS[6] == MaxOutputToken;
    }
  }

  lemma FinalIsComplete(m: Settings, asInt: string -> Option<int>)
    ensures IsComplete(Final(m, asInt), asInt)
  {
    AllKeysSound(Pricing);
    FamilyIsComplete(m, asInt, Taskflow);
    FamilyIsComplete(m, asInt, Compression);
    forall f ensures HasFamily(Final(m, asInt), f) ==>
                       Of(f, MaxOutputToken) in Final(m, asInt) && MissingPenalties(Final(m, asInt), f) == []
    {
      FamilyIsComplete(m, asInt, f);
    }
  }

  /** A document that holds everything that belongs is left alone. */
  lemma CompleteIsLeftAlone(d: Doc, asInt: string -> Option<int>)
    requires Parse(d).Some? && IsComplete(Parse(d).value, asInt)
    ensures Migrated(d, asInt) == d
  {
    var m := Parse(d).value;
    NothingToRefloor(d, m, asInt);
    assert PricingPass(d) == d;
    FamilyBlocks(m);
    assert FamilyPass(d) == d;
    NothingToCap(d, m, |FAMILIES|);
    NothingToPenalize(d, |FAMILIES|);
  }

  /** One run is enough: a second one leaves every line as it is. */
  lemma MigrationIsIdempotent(d: Doc, asInt: string -> Option<int>)
    ensures Migrated(Migrated(d, asInt), asInt) == Migrated(d, asInt)
  {
    MigrationIsSound(d, asInt);
    if Parse(d).Some? {
      FinalIsComplete(Parse(d).value, asInt);
      CompleteIsLeftAlone(Migrated(d, asInt), asInt);
    }
  }

  // -------------------------------------------------------- surviving lines

  /** The same line, up to an added comma or the one value that is rewritten. */
  predicate Kin(a: Line, b: Line, asInt: string -> Option<int>) {
    a == b
    || (a.Assign? && b.Assign? && a.indent == b.indent && a.key == b.key && (a.comma ==> b.comma)
        && (a.value == b.value || (AtOldFloor(a.key, a.value, asInt) && b.value == Num(200000))))
  }

  /** Every line of `a` is, in order, in `b`. */
  predicate Survives(a: Doc, b: Doc, asInt: string -> Option<int>)
    decreases |b|
  {
    if a == [] then true
    else if b == [] then false
    else (Kin(a[0], b[0], asInt) && Survives(a[1..], b[1..], asInt)) || Survives(a, b[1..], asInt)
  }

  lemma {:induction false} SurvivesSelf(a: Doc, asInt: string -> Option<int>)
    ensures Survives(a, a, asInt)
  {
    if a != [] { SurvivesSelf(a[1..], asInt); }
  }

  lemma {:induction false} SurvivesBefore(a: Doc, news: Doc, b: Doc, asInt: string -> Option<int>)
    requires Survives(a, b, asInt)
    ensures Survives(a, news + b, asInt)
    decreases |news|
  {
    if news == [] {
      assert news + b == b;
    } else {
      assert (news + b)[1..] == news[1..] + b;
      SurvivesBefore(a, news[1..], b, asInt);
    }
  }

  lemma {:induction false} SurvivesConcat(a: Doc, b: Doc, c: Doc, e: Doc, asInt: string -> Option<int>)
    requires Survives(a, b, asInt) && Survives(c, e, asInt)
    ensures Survives(a + c, b + e, asInt)
    decreases |b|
  {
    if a == [] {
      assert a + c == c;
      SurvivesBefore(c, b, e, asInt);
    } else {
      assert (b + e)[1..] == b[1..] + e && (a + c)[1..] == a[1..] + c;
      if Kin(a[0], b[0], asInt) && Survives(a[1..], b[1..], asInt) {
        SurvivesConcat(a[1..], b[1..], c, e, asInt);
      } else {
        SurvivesConcat(a, b[1..], c, e, asInt);
      }
    }
  }

  lemma {:induction false} SurvivesTrans(a: Doc, b: Doc, c: Doc, asInt: string -> Option<int>)
    requires Survives(a, b, asInt) && Survives(b, c, asInt)
    ensures Survives(a, c, asInt)
    decreases |c|
  {
    if a != [] && c != [] && b != [] {
      if Survives(b, c[1..], asInt) {
        SurvivesTrans(a, b, c[1..], asInt);
      } else if Kin(a[0], b[0], asInt) && Survives(a[1..], b[1..], asInt) {
        SurvivesTrans(a[1..], b[1..], c[1..], asInt);
      } else {
        SurvivesTrans(a, b[1..], c[1..], asInt);
      }
    }
  }

  lemma SurvivesAround(head: Doc, a: Line, b: Line, news: Doc, rest: Doc, asInt: string -> Option<int>)
    requires Kin(a, b, asInt)
    ensures Survives(head + ([a] + rest), head + ([b] + (news + rest)), asInt)
  {
    SurvivesSelf(head, asInt);
    SurvivesSelf(rest, asInt);
    SurvivesBefore(rest, news, rest, asInt);
    SurvivesConcat([a], [b], rest, news + rest, asInt);
    SurvivesConcat(head, head, [a] + rest, [b] + (news + rest), asInt);
  }

  lemma SplitAt(d: Doc, i: nat, line: Line, news: Doc)
    requires i < |d|
    ensures d == d[..i] + ([d[i]] + d[i + 1..])
    ensures d[..i] + [line] + news + d[i + 1..] == d[..i] + ([line] + (news + d[i + 1..]))
  {
  }

  lemma InsertSurvives(d: Doc, i: nat, news: Doc, asInt: string -> Option<int>)
    requires i < |d|
    ensures Survives(d, InsertAfter(d, i, news), asInt)
  {
    SplitAt(d, i, WithComma(d[i]), news);
    SurvivesAround(d[..i], d[i], WithComma(d[i]), news, d[i + 1..], asInt);
  }

  lemma {:induction false} FloorSurvives(d: Doc, m: Settings, asInt: string -> Option<int>)
    requires forall i :: 0 <= i < |d| && d[i].Assign? ==> d[i].key in m && m[d[i].key] == d[i].value
    ensures Survives(d, FloorLines(d, m, asInt), asInt)
  {
    if d != [] {
      var last := d[|d| - 1];
      FloorSurvives(d[..|d| - 1], m, asInt);
      SurvivesConcat(d[..|d| - 1], FloorLines(d[..|d| - 1], m, asInt), [last], [Refloored(last, m, asInt)], asInt);
      assert d == d[..|d| - 1] + [last];
    }
  }

  lemma FloorPassSurvives(d: Doc, asInt: string -> Option<int>)
    ensures Survives(d, FloorPass(d, asInt), asInt)
  {
    if Parse(d).None? {
      SurvivesSelf(d, asInt);
    } else {
      forall i | 0 <= i < |d| && d[i].Assign?
        ensures d[i].key in Parse(d).value && Parse(d).value[d[i].key] == d[i].value {
        ScanHasAssigned(Before, d, i);
      }
      FloorSurvives(d, Parse(d).value, asInt);
    }
  }

  lemma AfterOpenSurvives(d: Doc, news: Doc, asInt: string -> Option<int>)
    ensures Survives(d, AfterOpen(d, news), asInt) && Survives(d, d, asInt)
  {
    SurvivesSelf(d, asInt);
    if OpenAt(d).Some? { InsertSurvives(d, OpenAt(d).value, news, asInt); }
  }

  lemma InsertFieldsSurvives(d: Doc, f: Family, anchor: Option<Field>, fields: seq<Field>, asInt: string -> Option<int>)
    ensures Survives(d, InsertFields(d, f, anchor, fields), asInt) && Survives(d, d, asInt)
  {
    SurvivesSelf(d, asInt);
    if Target(d, f, anchor).Some? {
      var i := Target(d, f, anchor).value;
      InsertSurvives(d, i, FieldLines(d[i].indent, f, fields), asInt);
    }
  }

  lemma {:induction false} CapStepsSurvive(d: Doc, m: Settings, n: nat, asInt: string -> Option<int>)
    requires n <= |FAMILIES|
    ensures Survives(d, CapSteps(d, m, n), asInt)
  {
    if n == 0 {
      SurvivesSelf(d, asInt);
    } else {
      var c := CapSteps(d, m, n - 1);
      CapStepsSurvive(d, m, n - 1, asInt);
      InsertFieldsSurvives(c, FAMILIES[n - 1], Some(MaxToken), [MaxOutputToken], asInt);
      SurvivesTrans(d, c, CapSteps(d, m, n), asInt);
    }
  }

  lemma {:induction false} PenaltyStepsSurvive(d: Doc, m: Settings, n: nat, asInt: string -> Option<int>)
    requires n <= |FAMILIES|
    ensures Survives(d, PenaltySteps(d, m, n), asInt)
  {
    if n == 0 {
      SurvivesSelf(d, asInt);
    } else {
      var f, c := FAMILIES[n - 1], PenaltySteps(d, m, n - 1);
      PenaltyStepsSurvive(d, m, n - 1, asInt);
      InsertFieldsSurvives(c, f, PenaltyAnchor(m, f), MissingPenalties(m, f), asInt);
      SurvivesTrans(d, c, PenaltySteps(d, m, n), asInt);
    }
  }

  /** Every original line survives, in order, up to one added comma or the floor
      rewrite. */
  lemma EveryLineSurvives(d: Doc, asInt: string -> Option<int>)
    ensures Survives(d, Migrated(d, asInt), asInt)
  {
    var d1 := FloorPass(d, asInt);
    FloorPassSurvives(d, asInt);
    var d2 := PricingPass(d1);
    AfterOpenSurvives(d1, [NewLine("  ", Pricing)], asInt);
    var d3 := FamilyPass(d2);
    if Parse(d2).Some? { AfterOpenSurvives(d2, Blocks(Parse(d2).value, OPTIONAL_FAMILIES) + [Blank], asInt); }
    SurvivesSelf(d2, asInt);
    var d4 := CapPass(d3);
    if Parse(d3).Some? { CapStepsSurvive(d3, Parse(d3).value, |FAMILIES|, asInt); }
    SurvivesSelf(d3, asInt);
    var d5 := PenaltyPass(d4);
    if Parse(d4).Some? { PenaltyStepsSurvive(d4, Parse(d4).value, |FAMILIES|, asInt); }
    SurvivesSelf(d4, asInt);
    SurvivesTrans(d, d1, d2, asInt);
    SurvivesTrans(d, d2, d3, asInt);
    SurvivesTrans(d, d3, d4, asInt);
    SurvivesTrans(d, d4, d5, asInt);
  }
}
