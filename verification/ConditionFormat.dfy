/** Stored conditions byte by byte: which types there are, which tags each writes, and which conditions are
    stored at all. */
module ConditionFormat {
  import opened Bytes
  import opened ConditionStream
  import D = DamageRun

  /** The five header fields: type (1), id (2), ticks (3), buff (26) and sub id (27); 254 ends a condition. */
  lemma HeaderFormat(c: Condition)
    ensures Serialized(c)
         == ([1] + EncodeLE(c.ctype, 4) + ([2] + EncodeLE(c.id % 0x1_0000_0000, 4) + ([3] + EncodeLE(c.ticks % 0x1_0000_0000, 4)
             + ([26] + EncodeLE(if c.isBuff then 1 else 0, 1) + ([27] + EncodeLE(c.subId, 4))))))
            + (ExtraBytes(c) + [254])
  {
    hide ExtraBytes, EncodeLE;
  }

  lemma NoMore(width: nat)
    ensures FieldBytes([], []) == []
  {
  }

  /** Haste and paralysis: the change and the four numbers of its formula. */
  lemma SpeedFormat(c: Condition)
    requires WellFormed(c) && c.ctype in {16, 32}
    ensures c.extra.Fields? && |c.extra.values| == 5
    ensures var v := c.extra.values;
            ExtraBytes(c) == [11] + EncodeLE(v[0], 4) + ([12] + EncodeLE(v[1], 4) + ([13] + EncodeLE(v[2], 4)
                             + ([14] + EncodeLE(v[3], 4) + ([15] + EncodeLE(v[4], 4) + []))))
  {
    assert c.kind == Speed;
    hide EncodeLE;
    FiveFields(c.extra.values, [Field(11, 4), Field(12, 4), Field(13, 4), Field(14, 4), Field(15, 4)]);
  }

  lemma OneField(values: seq<nat>, layout: seq<Field>)
    requires values != [] && layout != []
    ensures FieldBytes(layout, values) == [layout[0].tag] + EncodeLE(values[0], layout[0].width) + FieldBytes(layout[1..], values[1..])
  {
  }

  lemma FourFields(values: seq<nat>, layout: seq<Field>)
    requires |values| == |layout| == 4
    ensures FieldBytes(layout, values)
         == [layout[0].tag] + EncodeLE(values[0], layout[0].width) + ([layout[1].tag] + EncodeLE(values[1], layout[1].width)
            + ([layout[2].tag] + EncodeLE(values[2], layout[2].width) + ([layout[3].tag] + EncodeLE(values[3], layout[3].width) + [])))
  {
    hide EncodeLE;
    OneField(values, layout);
    OneField(values[1..], layout[1..]);
    OneField(values[2..], layout[2..]);
    OneField(values[3..], layout[3..]);
    assert values[1..][1..] == values[2..] && values[2..][1..] == values[3..] && values[3..][1..] == [];
    assert layout[1..][1..] == layout[2..] && layout[2..][1..] == layout[3..] && layout[3..][1..] == [];
    hide FieldBytes;
    NoMore(0);
  }

  lemma FiveFields(values: seq<nat>, layout: seq<Field>)
    requires |values| == |layout| == 5
    ensures FieldBytes(layout, values)
         == [layout[0].tag] + EncodeLE(values[0], layout[0].width) + ([layout[1].tag] + EncodeLE(values[1], layout[1].width)
            + ([layout[2].tag] + EncodeLE(values[2], layout[2].width) + ([layout[3].tag] + EncodeLE(values[3], layout[3].width)
            + ([layout[4].tag] + EncodeLE(values[4], layout[4].width) + []))))
  {
    OneField(values, layout);
    hide EncodeLE, FieldBytes;
    FourFields(values[1..], layout[1..]);
  }

  lemma TwoFields(values: seq<nat>, layout: seq<Field>)
    requires |values| == |layout| == 2
    ensures FieldBytes(layout, values)
         == [layout[0].tag] + EncodeLE(values[0], layout[0].width) + ([layout[1].tag] + EncodeLE(values[1], layout[1].width) + [])
  {
    hide EncodeLE;
    OneField(values, layout);
    OneField(values[1..], layout[1..]);
    assert values[1..][1..] == [] && layout[1..][1..] == [];
    hide FieldBytes;
    NoMore(0);
  }

  /** Light: color and level, kept as bytes, and the two numbers of its fading. */
  lemma LightFormat(c: Condition)
    requires WellFormed(c) && c.ctype == 256
    ensures c.extra.Fields? && |c.extra.values| == 4 && c.extra.values[0] < 256 && c.extra.values[1] < 256
    ensures var v := c.extra.values;
            ExtraBytes(c) == [16] + EncodeLE(v[0], 4) + ([17] + EncodeLE(v[1], 4) + ([18] + EncodeLE(v[2], 4) + ([19] + EncodeLE(v[3], 4) + [])))
  {
    assert c.kind == Light;
    assert Stored(Light, 16, c.extra.values[0]) == c.extra.values[0];
    assert Stored(Light, 17, c.extra.values[1]) == c.extra.values[1];
    hide EncodeLE;
    FourFields(c.extra.values, [Field(16, 4), Field(17, 4), Field(18, 4), Field(19, 4)]);
  }

  /** Regeneration: ticks and gain of health and of mana. */
  lemma RegenerationFormat(c: Condition)
    requires WellFormed(c) && c.ctype == 8192
    ensures c.extra.Fields? && |c.extra.values| == 4
    ensures var v := c.extra.values;
            ExtraBytes(c) == [4] + EncodeLE(v[0], 4) + ([5] + EncodeLE(v[1], 4) + ([6] + EncodeLE(v[2], 4) + ([7] + EncodeLE(v[3], 4) + [])))
  {
    assert c.kind == Regeneration;
    hide EncodeLE;
    FourFields(c.extra.values, [Field(4, 4), Field(5, 4), Field(6, 4), Field(7, 4)]);
  }

  /** The two kinds of soul regeneration. */
  lemma SoulFormat(c: Condition)
    requires WellFormed(c) && c.ctype in {0x4000, 0x2000_0000}
    ensures c.extra.Fields? && |c.extra.values| == 2
    ensures var v := c.extra.values; ExtraBytes(c) == [21] + EncodeLE(v[0], 4) + ([20] + EncodeLE(v[1], 4) + [])
  {
    hide EncodeLE;
    TwoFields(c.extra.values, [Field(21, 4), Field(20, 4)]);
  }

  /** Stamina: two bytes and four. */
  lemma StaminaFormat(c: Condition)
    requires WellFormed(c) && c.ctype == 0x1000_0000
    ensures c.extra.Fields? && |c.extra.values| == 2
    ensures var v := c.extra.values; ExtraBytes(c) == [28] + EncodeLE(v[0], 2) + ([29] + EncodeLE(v[1], 4) + [])
  {
    hide EncodeLE;
    TwoFields(c.extra.values, [Field(28, 2), Field(29, 4)]);
  }

  /** An outfit is eighteen raw bytes. */
  lemma OutfitFormat(c: Condition)
    requires WellFormed(c) && c.ctype == 64
    ensures c.extra.Fields? && |c.extra.values| == 1 && ExtraBytes(c) == [24] + EncodeLE(c.extra.values[0], 18) + []
  {
    hide EncodeLE;
    OneField(c.extra.values, [Field(24, 18)]);
    assert c.extra.values[1..] == [] && [Field(24, 18)][1..] == [];
  }

  /** Types that store nothing beyond the header. */
  lemma PlainFormat(c: Condition)
    requires WellFormed(c)
    requires c.ctype in {0x80, 0x200, 0x400, 0x800, 0x1000, 0x1_0000, 0x2_0000, 0x4_0000, 0x80_0000, 0x100_0000, 0x200_0000, 0x400_0000, 0x800_0000}
    ensures c.extra == Fields([]) && ExtraBytes(c) == []
  {
  }

  /** Damage over time: the delay, the periodic damage, and every entry with its time left, its value and its
      interval. */
  lemma DamageFormat(c: Condition)
    requires WellFormed(c) && c.ctype in {1, 2, 4, 8, 0x8000, 0x10_0000, 0x20_0000, 0x40_0000}
    ensures c.extra.OverTime?
    ensures ExtraBytes(c) == [8] + EncodeLE(if c.extra.delayed then 1 else 0, 1)
                             + ([25] + EncodeLE(c.extra.periodDamage % 0x1_0000_0000, 4) + EntriesBytes(c.extra.entries))
  {
    hide EncodeLE, EntriesBytes;
  }

  lemma EntryFormat(e: D.IntervalInfo, rest: seq<D.IntervalInfo>)
    ensures EntriesBytes([]) == []
    ensures EntriesBytes([e] + rest)
         == [10] + (EncodeLE(e.timeLeft % 0x1_0000_0000, 4) + (EncodeLE(e.value % 0x1_0000_0000, 4) + EncodeLE(e.interval % 0x1_0000_0000, 4)))
            + EntriesBytes(rest)
  {
    hide EncodeLE;
    assert ([e] + rest)[1..] == rest;
  }

  /** Attributes: thirteen skills under 22 and four stats under 23. */
  lemma AttributesFormat(c: Condition)
    requires WellFormed(c) && c.ctype == 0x8_0000
    ensures c.extra.Bonuses? && |c.extra.skills| == 13 && |c.extra.stats| == 4
    ensures ExtraBytes(c) == WordsBytes(22, c.extra.skills) + WordsBytes(23, c.extra.stats)
  {
    hide WordsBytes;
  }

  lemma WordFormat(tag: byte, w: int, rest: seq<int>)
    ensures WordsBytes(tag, []) == []
    ensures WordsBytes(tag, [w] + rest) == [tag] + EncodeLE(w % 0x1_0000_0000, 4) + WordsBytes(tag, rest)
  {
    hide EncodeLE;
    assert ([w] + rest)[1..] == rest;
  }

  /** There are no other types. */
  lemma KnownTypes(c: Condition)
    requires WellFormed(c)
    ensures c.ctype in {1, 2, 4, 8, 0x8000, 0x10_0000, 0x20_0000, 0x40_0000, 16, 32, 64, 256, 8192, 0x4000, 0x2000_0000, 0x1000_0000, 0x8_0000,
                        0x80, 0x200, 0x400, 0x800, 0x1000, 0x1_0000, 0x2_0000, 0x4_0000, 0x80_0000, 0x100_0000, 0x200_0000, 0x400_0000, 0x800_0000}
  {
  }

  /** A stored owner (9) of a damage condition is passed over. */
  lemma OwnerSkipped(c: Condition, owner: seq<byte>, rest: seq<byte>)
    requires c.extra.OverTime? && |owner| == 4
    ensures Unserialized(c, [9] + owner + rest) == Unserialized(c, rest)
  {
    var s := [9] + owner + rest;
    assert s[1..] == owner + rest && (owner + rest)[4..] == rest;
  }

  /** Field 10 adds an entry to a damage condition, and its interval to the ticks unless they have no end. */
  lemma EntryRead(c: Condition, a: seq<byte>, b: seq<byte>, e: seq<byte>, rest: seq<byte>)
    requires c.extra.OverTime? && |a| == |b| == |e| == 4
    ensures var step := DamageProp(c, 10, a + b + e + rest);
            var entry := D.IntervalInfo(Signed(DecodeLE(a)), Signed(DecodeLE(b)), Signed(DecodeLE(e)));
            step == Step(true, c.(extra := c.extra.(entries := c.extra.entries + [entry]),
                                  ticks := if c.ticks == -1 then -1 else c.ticks + entry.interval), rest)
  {
    hide DecodeLE, Signed;
    var s := a + b + e + rest;
    assert s[..4] == a && s[4..8] == b && s[8..12] == e && s[12..] == rest;
  }

  /** A header field that comes again sets its value, 254 sets nothing, and a field that nobody knows breaks
      the stream. */
  lemma CommonFields(c: Condition, tag: byte, b: seq<byte>, rest: seq<byte>)
    requires |b| == if tag == 26 then 1 else 4
    ensures var v := DecodeLE(b);
            && (tag == 1 ==> CommonProp(c, tag, b + rest) == Step(true, c.(ctype := v), rest))
            && (tag == 2 && v < 128 ==> CommonProp(c, tag, b + rest) == Step(true, c.(id := v), rest))
            && (tag == 2 && v == 0xFFFF_FFFF ==> CommonProp(c, tag, b + rest) == Step(true, c.(id := -1), rest))
            && (tag == 3 && v < 0x8000_0000 ==> CommonProp(c, tag, b + rest) == Step(true, c.(ticks := v), rest))
            && (tag == 3 && v == 0xFFFF_FFFF ==> CommonProp(c, tag, b + rest) == Step(true, c.(ticks := -1), rest))
            && (tag == 26 ==> CommonProp(c, tag, b + rest) == Step(true, c.(isBuff := v != 0), rest))
            && (tag == 27 ==> CommonProp(c, tag, b + rest) == Step(true, c.(subId := v), rest))
    ensures tag !in {1, 2, 3, 26, 27} ==> CommonProp(c, tag, b + rest) == Step(tag == 254, c, b + rest)
  {
    hide DecodeLE;
    assert (b + rest)[..|b|] == b && (b + rest)[|b|..] == rest;
  }

  /** Where less than that is left, the stream is broken. */
  lemma CommonFieldsCut(c: Condition, tag: byte, s: seq<byte>)
    requires tag in {1, 2, 3, 26, 27} && |s| < if tag == 26 then 1 else 4
    ensures !CommonProp(c, tag, s).ok
  {
  }

  // ---------- which conditions can be stored ----------

  predicate Int(v: int) {
    -2147483648 <= v <= 2147483647
  }

  /** Simple fields, each below its bound. */
  predicate Below(extra: Extra, bounds: seq<nat>) {
    extra.Fields? && |extra.values| == |bounds| && forall j :: 0 <= j < |bounds| ==> extra.values[j] < bounds[j]
  }

  const FOUR_BYTES: nat := 4294967296

  predicate Fitting(c: Condition) {
    match c.kind
    case Damage => c.ctype in {1, 2, 4, 8, 0x8000, 0x10_0000, 0x20_0000, 0x40_0000}
                   && c.extra.OverTime? && Int(c.extra.periodDamage)
                   && forall e :: e in c.extra.entries ==> Int(e.timeLeft) && Int(e.value) && Int(e.interval) && e.interval >= 0
    case Attributes => c.ctype == 0x8_0000 && c.extra.Bonuses? && |c.extra.skills| == 13 && |c.extra.stats| == 4
                       && (forall v :: v in c.extra.skills ==> Int(v)) && forall v :: v in c.extra.stats ==> Int(v)
    case Speed => c.ctype in {16, 32} && Below(c.extra, [FOUR_BYTES, FOUR_BYTES, FOUR_BYTES, FOUR_BYTES, FOUR_BYTES])
    case Outfit => c.ctype == 64 && Below(c.extra, [0x1_000000_000000_000000_000000_000000_000000])
    case Light => c.ctype == 256 && Below(c.extra, [256, 256, FOUR_BYTES, FOUR_BYTES])
    case Regeneration => c.ctype == 8192 && Below(c.extra, [FOUR_BYTES, FOUR_BYTES, FOUR_BYTES, FOUR_BYTES])
    case Soul => c.ctype == 0x4000 && Below(c.extra, [FOUR_BYTES, FOUR_BYTES])
    case SoulBonus => c.ctype == 0x2000_0000 && Below(c.extra, [FOUR_BYTES, FOUR_BYTES])
    case Stamina => c.ctype == 0x1000_0000 && Below(c.extra, [65536, FOUR_BYTES])
    case Plain => c.extra == Fields([])
                  && c.ctype in {0x80, 0x200, 0x400, 0x800, 0x1000, 0x1_0000, 0x2_0000, 0x4_0000, 0x80_0000, 0x100_0000,
                                 0x200_0000, 0x400_0000, 0x800_0000}
  }

  /** The conditions that come back are all those that fit the fields of the server: an identifier of eight
      bits, numbers of 32, and what the class of the type has. */
  lemma WellFormedMeans(c: Condition)
    ensures WellFormed(c) <==> -128 <= c.id <= 127 && Int(c.ticks) && c.subId < 4294967296 && Fitting(c)
  {
    hide FieldsFit, Layout;
    if c.extra.Fields? {
      FieldsMean(c);
      hide Fitting;
    } else if c.extra.OverTime? {
      assert forall k :: 0 <= k < |c.extra.entries| ==> c.extra.entries[k] in c.extra.entries;
    } else {
      assert forall k :: 0 <= k < |c.extra.skills| ==> c.extra.skills[k] in c.extra.skills;
      assert forall k :: 0 <= k < |c.extra.stats| ==> c.extra.stats[k] in c.extra.stats;
    }
  }

  lemma FieldsMean(c: Condition)
    requires c.extra.Fields?
    ensures Fitting(c) <==>
            KindOf(c.ctype) == Some(c.kind) && c.kind != Damage && c.kind != Attributes && |c.extra.values| == |Layout(c.kind)|
            && FieldsFit(c.kind, Layout(c.kind), c.extra.values)
  {
    WidthPowers();
    hide Pow256;
  }

  lemma WidthPowers()
    ensures Pow256(2) == 65536 && Pow256(4) == 4294967296 && Pow256(18) == 0x1_000000_000000_000000_000000_000000_000000
  {
    assert Pow256(2) == 65536;
    assert Pow256(4) == 4294967296;
    assert Pow256(6) == 0x1_000000_000000;
    assert Pow256(8) == 0x1_000000_000000_0000;
    assert Pow256(10) == 0x1_000000_000000_00000000;
    assert Pow256(12) == 0x1_000000_000000_000000_000000;
    assert Pow256(14) == 0x1_000000_000000_000000_000000_0000;
    assert Pow256(16) == 0x1_000000_000000_000000_000000_00000000;
  }

  /** A field that a stream does not hold has the value of the constructors: 0, or 1000 for the ticks of a
      regeneration. */
  lemma BlankFields(k: Kind)
    ensures match Blank(k)
            case OverTime(delayed, periodDamage, entries) => k == Damage && !delayed && periodDamage == 0 && entries == []
            case Bonuses(skills, stats, _, _) =>
              k == Attributes && |skills| == 13 && |stats| == 4 && (forall v :: v in skills ==> v == 0) && forall v :: v in stats ==> v == 0
            case Fields(values) =>
              k != Damage && k != Attributes
              && forall j :: 0 <= j < |values| ==> values[j] == if k == Regeneration && j % 2 == 0 then 1000 else 0
  {
  }

  /** Exactly the conditions that end and do not come from equipment (id -1 or 0) are stored. */
  lemma {:induction false} StoredOnes(list: seq<Condition>, r: Condition)
    ensures r in Kept(list) <==> exists c :: c in list && c.ticks != -1 && (c.id == -1 || c.id == 0) && r == Restored(c)
    decreases |list|
  {
    if list != [] {
      StoredOnes(list[1..], r);
      assert list == [list[0]] + list[1..];
    }
  }

  /** A damage condition comes back with the ticks that its entries add up to; everything else as it was. */
  lemma BackAgain(c: Condition)
    ensures var r := Restored(c);
            && r.ctype == c.ctype && r.id == c.id && r.isBuff == c.isBuff && r.subId == c.subId
            && (c.extra.Fields? ==> r == c)
            && (c.extra.OverTime? ==> r.extra == c.extra && r.ticks == D.Intervals(c.extra.entries))
            && (c.extra.Bonuses? ==> r.extra.Bonuses? && r.extra.skills == c.extra.skills && r.extra.stats == c.extra.stats && r.ticks == c.ticks)
  {
  }
}
