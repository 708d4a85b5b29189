/** Conditions on the wire: a header of five tagged fields, the tagged fields of the kind, and an end
    tag; one stream holds all conditions of a player. */
module ConditionStream {
  import opened Bytes
  import D = DamageRun

  const TYPE: byte := 1
  const ID: byte := 2
  const TICKS: byte := 3
  const DELAYED: byte := 8
  const OWNER: byte := 9
  const INTERVALDATA: byte := 10
  const SKILLS: byte := 22
  const STATS: byte := 23
  const PERIODDAMAGE: byte := 25
  const ISBUFF: byte := 26
  const SUBID: byte := 27
  const END: byte := 254

  const SKILL_COUNT := 13
  const STAT_COUNT := 4

  /** The classes with a format of their own; Plain has nothing beyond the header. */
  datatype Kind = Damage | Speed | Outfit | Light | Regeneration | Soul | SoulBonus | Stamina | Attributes | Plain

  /** Which class createCondition makes for a type. */
  function KindOf(ctype: nat): Option<Kind> {
    if ctype in {0x1, 0x2, 0x4, 0x8, 0x8000, 0x10_0000, 0x20_0000, 0x40_0000} then Some(Damage)
    else if ctype in {0x10, 0x20} then Some(Speed)
    else if ctype == 0x40 then Some(Outfit)
    else if ctype == 0x100 then Some(Light)
    else if ctype == 0x2000 then Some(Regeneration)
    else if ctype == 0x4000 then Some(Soul)
    else if ctype == 0x2000_0000 then Some(SoulBonus)
    else if ctype == 0x1000_0000 then Some(Stamina)
    else if ctype == 0x8_0000 then Some(Attributes)
    else if ctype in {0x80, 0x200, 0x400, 0x800, 0x1000, 0x1_0000, 0x2_0000, 0x4_0000, 0x80_0000, 0x100_0000,
                      0x200_0000, 0x400_0000, 0x800_0000} then Some(Plain)
    else None
  }

  datatype Field = Field(tag: byte, width: nat)

  /** The fields of the simple kinds, in the order they are written. */
  function Layout(k: Kind): seq<Field> {
    match k
    case Speed => [Field(11, 4), Field(12, 4), Field(13, 4), Field(14, 4), Field(15, 4)]
    case Outfit => [Field(24, 18)]
    case Light => [Field(16, 4), Field(17, 4), Field(18, 4), Field(19, 4)]
    case Regeneration => [Field(4, 4), Field(5, 4), Field(6, 4), Field(7, 4)]
    case Soul => [Field(21, 4), Field(20, 4)]
    case SoulBonus => [Field(21, 4), Field(20, 4)]
    case Stamina => [Field(28, 2), Field(29, 4)]
    case _ => []
  }

  /** How a field is kept: the light's color and level are bytes although they travel as words. */
  function Stored(k: Kind, tag: byte, v: nat): nat {
    if k == Light && (tag == 16 || tag == 17) then v % 256 else v
  }

  /** What a condition has beyond its header. */
  datatype Extra =
    | Fields(values: seq<nat>)
    | OverTime(delayed: bool, periodDamage: int, entries: seq<D.IntervalInfo>)
    | Bonuses(skills: seq<int>, stats: seq<int>, nextSkill: nat, nextStat: nat)

  datatype Condition = Condition(kind: Kind, ctype: nat, id: int, ticks: int, isBuff: bool, subId: nat, extra: Extra)

  // ---------- words ----------

  const WORD := 0x1_0000_0000

  predicate Int32(v: int) {
    -0x8000_0000 <= v < 0x8000_0000
  }

  function Word(v: int): nat {
    v % WORD
  }

  function Signed(w: nat): int {
    if w % WORD >= 0x8000_0000 then w % WORD - WORD else w % WORD
  }

  /** static_cast to an 8-bit enumeration. */
  function Signed8(w: nat): int {
    if w % 256 >= 128 then w % 256 - 256 else w % 256
  }

  lemma SignedWord(v: int)
    requires Int32(v)
    ensures Signed(Word(v)) == v && Word(v) < Pow256(4)
    ensures -128 <= v < 128 ==> Signed8(Word(v)) == v
  {
    Powers();
  }

  // ---------- writing ----------

  function Tagged(tag: byte, v: nat, n: nat): seq<byte> {
    [tag] + EncodeLE(v, n)
  }

  function Header(c: Condition): seq<byte> {
    Tagged(TYPE, c.ctype, 4) + (Tagged(ID, Word(c.id), 4) + (Tagged(TICKS, Word(c.ticks), 4)
    + (Tagged(ISBUFF, if c.isBuff then 1 else 0, 1) + Tagged(SUBID, c.subId, 4))))
  }

  function FieldBytes(layout: seq<Field>, values: seq<nat>): seq<byte> {
    if layout == [] || values == [] then [] else Tagged(layout[0].tag, values[0], layout[0].width) + FieldBytes(layout[1..], values[1..])
  }

  function EntryBytes(e: D.IntervalInfo): seq<byte> {
    [INTERVALDATA] + (EncodeLE(Word(e.timeLeft), 4) + (EncodeLE(Word(e.value), 4) + EncodeLE(Word(e.interval), 4)))
  }

  function EntriesBytes(entries: seq<D.IntervalInfo>): seq<byte> {
    if entries == [] then [] else EntryBytes(entries[0]) + EntriesBytes(entries[1..])
  }

  function WordsBytes(tag: byte, words: seq<int>): seq<byte> {
    if words == [] then [] else Tagged(tag, Word(words[0]), 4) + WordsBytes(tag, words[1..])
  }

  function ExtraBytes(c: Condition): seq<byte> {
    match c.extra
    case Fields(values) => FieldBytes(Layout(c.kind), values)
    case OverTime(delayed, periodDamage, entries) =>
      Tagged(DELAYED, if delayed then 1 else 0, 1) + (Tagged(PERIODDAMAGE, Word(periodDamage), 4) + EntriesBytes(entries))
    case Bonuses(skills, stats, _, _) => WordsBytes(SKILLS, skills) + WordsBytes(STATS, stats)
  }

  /** serialize and the end tag. */
  function Serialized(c: Condition): seq<byte> {
    Header(c) + (ExtraBytes(c) + [END])
  }

  predicate Persistent(c: Condition) {
    c.ticks != -1 && (c.id == -1 || c.id == 0)
  }

  function Saved(list: seq<Condition>): seq<byte> {
    if list == [] then []
    else (if Persistent(list[0]) then Serialized(list[0]) else []) + Saved(list[1..])
  }

  // ---------- reading ----------

  function TakeTagged(s: seq<byte>, tag: byte, n: nat): Option<(nat, seq<byte>)> {
    if s == [] || s[0] != tag then None else TakeLE(s[1..], n)
  }

  /** What the constructors set up before the fields are read. */
  function Blank(k: Kind): Extra {
    match k
    case Damage => OverTime(false, 0, [])
    case Attributes => Bonuses(seq(SKILL_COUNT, _ => 0), seq(STAT_COUNT, _ => 0), 0, 0)
    case Regeneration => Fields([1000, 0, 1000, 0])
    case _ => Fields(seq(|Layout(k)|, _ => 0))
  }

  /** createCondition from a stream: damage conditions do not take over the ticks. */
  function Created(s: seq<byte>): (r: Option<(Condition, seq<byte>)>)
    ensures r.Some? ==> |r.value.1| < |s|
  {
    match TakeTagged(s, TYPE, 4)
    case None => None
    case Some((ctype, s1)) =>
      match TakeTagged(s1, ID, 4)
      case None => None
      case Some((id, s2)) =>
        match TakeTagged(s2, TICKS, 4)
        case None => None
        case Some((ticks, s3)) =>
          match TakeTagged(s3, ISBUFF, 1)
          case None => None
          case Some((buff, s4)) =>
            match TakeTagged(s4, SUBID, 4)
            case None => None
            case Some((subId, s5)) =>
              match KindOf(ctype)
              case None => None
              case Some(k) => Some((Condition(k, ctype, Signed8(id), if k == Damage then 0 else Signed(ticks), buff != 0, subId, Blank(k)), s5))
  }

  /** The outcome of reading one property: whether it succeeded, and what is left to read. */
  datatype Step = Step(ok: bool, condition: Condition, rest: seq<byte>)

  function IndexOf(layout: seq<Field>, tag: byte): (k: nat)
    ensures k <= |layout| && (k < |layout| ==> layout[k].tag == tag)
    ensures forall j :: 0 <= j < k ==> layout[j].tag != tag
  {
    if layout == [] || layout[0].tag == tag then 0 else 1 + IndexOf(layout[1..], tag)
  }

  /** unserializeProp of the base class. */
  function CommonProp(c: Condition, tag: byte, s: seq<byte>): (r: Step)
    ensures |r.rest| <= |s|
  {
    if tag == TYPE then
      (match TakeLE(s, 4) case None => Step(false, c, s) case Some((v, rest)) => Step(true, c.(ctype := v), rest))
    else if tag == ID then
      (match TakeLE(s, 4) case None => Step(false, c, s) case Some((v, rest)) => Step(true, c.(id := Signed8(v)), rest))
    else if tag == TICKS then
      (match TakeLE(s, 4) case None => Step(false, c, s) case Some((v, rest)) => Step(true, c.(ticks := Signed(v)), rest))
    else if tag == ISBUFF then
      (match TakeLE(s, 1) case None => Step(false, c, s) case Some((v, rest)) => Step(true, c.(isBuff := v != 0), rest))
    else if tag == SUBID then
      (match TakeLE(s, 4) case None => Step(false, c, s) case Some((v, rest)) => Step(true, c.(subId := v), rest))
    else Step(tag == END, c, s)
  }

  function FieldProp(c: Condition, tag: byte, s: seq<byte>): (r: Step)
    requires c.extra.Fields?
    ensures |r.rest| <= |s|
  {
    var k := IndexOf(Layout(c.kind), tag);
    if k < |Layout(c.kind)| && k < |c.extra.values| then
      match TakeLE(s, Layout(c.kind)[k].width)
      case None => Step(false, c, s)
      case Some((v, rest)) => Step(true, c.(extra := Fields(c.extra.values[k := Stored(c.kind, tag, v)])), rest)
    else CommonProp(c, tag, s)
  }

  function DamageProp(c: Condition, tag: byte, s: seq<byte>): (r: Step)
    requires c.extra.OverTime?
    ensures |r.rest| <= |s|
  {
    if tag == DELAYED then
      (match TakeLE(s, 1) case None => Step(false, c, s) case Some((v, rest)) => Step(true, c.(extra := c.extra.(delayed := v != 0)), rest))
    else if tag == PERIODDAMAGE then
      (match TakeLE(s, 4) case None => Step(false, c, s) case Some((v, rest)) => Step(true, c.(extra := c.extra.(periodDamage := Signed(v))), rest))
    else if tag == OWNER then
      (if |s| < 4 then Step(false, c, s) else Step(true, c, s[4..]))
    else if tag == INTERVALDATA then
      (if |s| < 12 then Step(false, c, s)
       else
         var e := D.IntervalInfo(Signed(DecodeLE(s[..4])), Signed(DecodeLE(s[4..8])), Signed(DecodeLE(s[8..12])));
         Step(true, WithEntry(c, e), s[12..]))
    else CommonProp(c, tag, s)
  }

  /** A damage entry adds its interval to the ticks. */
  function WithEntry(c: Condition, e: D.IntervalInfo): Condition
    requires c.extra.OverTime?
  {
    c.(extra := c.extra.(entries := c.extra.entries + [e]), ticks := if c.ticks != -1 then c.ticks + e.interval else -1)
  }

  /** A stream with more bonuses than there are is taken as broken. */
  function BonusProp(c: Condition, tag: byte, s: seq<byte>): (r: Step)
    requires c.extra.Bonuses?
    ensures |r.rest| <= |s|
  {
    var x := c.extra;
    if tag == SKILLS then
      (if x.nextSkill >= |x.skills| then Step(false, c, s)
       else match TakeLE(s, 4)
         case None => Step(false, c, s)
         case Some((v, rest)) =>
           Step(true, c.(extra := x.(skills := x.skills[x.nextSkill := Signed(v)], nextSkill := x.nextSkill + 1)), rest))
    else if tag == STATS then
      (if x.nextStat >= |x.stats| then Step(false, c, s)
       else match TakeLE(s, 4)
         case None => Step(false, c, s)
         case Some((v, rest)) =>
           Step(true, c.(extra := x.(stats := x.stats[x.nextStat := Signed(v)], nextStat := x.nextStat + 1)), rest))
    else CommonProp(c, tag, s)
  }

  /** unserializeProp. */
  function Prop(c: Condition, tag: byte, s: seq<byte>): (r: Step)
    ensures |r.rest| <= |s|
  {
    match c.extra
    case Fields(_) => FieldProp(c, tag, s)
    case OverTime(_, _, _) => DamageProp(c, tag, s)
    case Bonuses(_, _, _, _) => BonusProp(c, tag, s)
  }

  /** unserialize: properties up to the end tag or the end of the stream. */
  function Unserialized(c: Condition, s: seq<byte>): (r: Step)
    ensures |r.rest| <= |s|
    decreases |s|
  {
    if s == [] then Step(true, c, s)
    else if s[0] == END then Step(true, c, s[1..])
    else
      var step := Prop(c, s[0], s[1..]);
      if step.ok then Unserialized(step.condition, step.rest) else step
  }

  /** The loop of loadPlayer: conditions are pushed to the front of the list. */
  function Loaded(s: seq<byte>): seq<Condition>
    decreases |s|
  {
    match Created(s)
    case None => []
    case Some((c, rest)) =>
      var step := Unserialized(c, rest);
      Loaded(step.rest) + if step.ok then [step.condition] else []
  }

  // ---------- conditions as the server has them ----------

  predicate FieldsFit(k: Kind, layout: seq<Field>, values: seq<nat>)
    requires |layout| == |values|
  {
    forall j :: 0 <= j < |values| ==> values[j] < Pow256(layout[j].width) && Stored(k, layout[j].tag, values[j]) == values[j]
  }

  /** The widths of the C++ fields; the kind belongs to the type. */
  predicate WellFormed(c: Condition) {
    c.ctype < WORD && KindOf(c.ctype) == Some(c.kind) && -128 <= c.id < 128 && Int32(c.ticks) && c.subId < WORD
    && match c.extra
       case Fields(values) =>
         c.kind != Damage && c.kind != Attributes && |values| == |Layout(c.kind)| && FieldsFit(c.kind, Layout(c.kind), values)
       case OverTime(_, periodDamage, entries) =>
         c.kind == Damage && Int32(periodDamage)
         && forall k :: 0 <= k < |entries| ==>
              Int32(entries[k].timeLeft) && Int32(entries[k].value) && Int32(entries[k].interval) && entries[k].interval >= 0
       case Bonuses(skills, stats, _, _) =>
         c.kind == Attributes && |skills| == SKILL_COUNT && |stats| == STAT_COUNT
         && (forall k :: 0 <= k < |skills| ==> Int32(skills[k])) && forall k :: 0 <= k < |stats| ==> Int32(stats[k])
  }

  /** What comes back: everything as it was, but the ticks of a damage condition are the sum of its
      intervals and the positions of the bonus reader are at their end. */
  function Restored(c: Condition): Condition {
    match c.extra
    case Fields(_) => c
    case OverTime(_, _, entries) => c.(ticks := D.Intervals(entries))
    case Bonuses(_, _, _, _) => c.(extra := c.extra.(nextSkill := SKILL_COUNT, nextStat := STAT_COUNT))
  }

  // ---------- the round trip, piece by piece ----------

  lemma TakeBack(tag: byte, v: nat, n: nat, tail: seq<byte>)
    requires v < Pow256(n)
    ensures TakeTagged(Tagged(tag, v, n) + tail, tag, n) == Some((v, tail))
    ensures Tagged(tag, v, n) + tail == [tag] + (EncodeLE(v, n) + tail)
    ensures TakeLE((Tagged(tag, v, n) + tail)[1..], n) == Some((v, tail))
  {
    var s := Tagged(tag, v, n) + tail;
    assert s[1..] == EncodeLE(v, n) + tail;
    TakeEncoded(v, n, tail);
  }

  /** The header comes back with a blank condition of the right kind. */
  lemma HeaderBack(c: Condition, tail: seq<byte>)
    requires WellFormed(c)
    ensures Created(Header(c) + tail)
         == Some((c.(ticks := if c.kind == Damage then 0 else c.ticks, extra := Blank(c.kind)), tail))
  {
    hide Tagged, TakeTagged, KindOf, Blank, Layout, FieldsFit, Word, Signed, Signed8;
    Powers();
    SignedWord(c.id);
    SignedWord(c.ticks);
    var t4 := Tagged(SUBID, c.subId, 4) + tail;
    var t3 := Tagged(ISBUFF, if c.isBuff then 1 else 0, 1) + t4;
    var t2 := Tagged(TICKS, Word(c.ticks), 4) + t3;
    var t1 := Tagged(ID, Word(c.id), 4) + t2;
    HeaderChain(c, tail);
    TakeBack(TYPE, c.ctype, 4, t1);
    TakeBack(ID, Word(c.id), 4, t2);
    TakeBack(TICKS, Word(c.ticks), 4, t3);
    TakeBack(ISBUFF, if c.isBuff then 1 else 0, 1, t4);
    TakeBack(SUBID, c.subId, 4, tail);
  }

  lemma HeaderChain(c: Condition, tail: seq<byte>)
    ensures Header(c) + tail
         == Tagged(TYPE, c.ctype, 4) + (Tagged(ID, Word(c.id), 4) + (Tagged(TICKS, Word(c.ticks), 4)
            + (Tagged(ISBUFF, if c.isBuff then 1 else 0, 1) + (Tagged(SUBID, c.subId, 4) + tail))))
  {
    hide Tagged, Word;
  }

  lemma OneProp(c: Condition, tag: byte, payload: seq<byte>, tail: seq<byte>, c': Condition)
    requires tag != END && Prop(c, tag, payload + tail) == Step(true, c', tail)
    ensures Unserialized(c, [tag] + (payload + tail)) == Unserialized(c', tail)
  {
    var s := [tag] + (payload + tail);
    assert s[1..] == payload + tail;
  }

  /** Fields from position j on. */
  lemma {:induction false} FieldsBack(c: Condition, values: seq<nat>, j: nat, tail: seq<byte>)
    requires c.extra.Fields? && |values| == |Layout(c.kind)| == |c.extra.values| && j <= |values|
    requires FieldsFit(c.kind, Layout(c.kind), values)
    requires c.extra.values[..j] == values[..j]
    ensures Unserialized(c, FieldBytes(Layout(c.kind)[j..], values[j..]) + tail) == Unserialized(c.(extra := Fields(values)), tail)
    decreases |values| - j
  {
    hide Unserialized, Layout, Tagged, FieldsFit, Stored;
    var layout := Layout(c.kind);
    if j == |values| {
      assert c.extra.values == values;
      assert FieldBytes(layout[j..], values[j..]) + tail == tail;
    } else {
      var f, v := layout[j], values[j];
      var rest := FieldBytes(layout[j + 1..], values[j + 1..]) + tail;
      assert layout[j..][1..] == layout[j + 1..] && values[j..][1..] == values[j + 1..];
      var c' := c.(extra := Fields(c.extra.values[j := v]));
      FieldTaken(c, values, j, rest);
      assert FieldBytes(layout[j..], values[j..]) + tail == Tagged(f.tag, v, f.width) + rest;
      assert c'.extra.values[..j + 1] == values[..j + 1];
      FieldsBack(c', values, j + 1, tail);
    }
  }

  lemma FieldTaken(c: Condition, values: seq<nat>, j: nat, rest: seq<byte>)
    requires c.extra.Fields? && |values| == |Layout(c.kind)| == |c.extra.values| && j < |values|
    requires FieldsFit(c.kind, Layout(c.kind), values)
    ensures Unserialized(c, Tagged(Layout(c.kind)[j].tag, values[j], Layout(c.kind)[j].width) + rest)
         == Unserialized(c.(extra := Fields(c.extra.values[j := values[j]])), rest)
  {
    hide Unserialized;
    var f, v := Layout(c.kind)[j], values[j];
    TagsDiffer(c.kind, j);
    TakeBack(f.tag, v, f.width, rest);
    TakeEncoded(v, f.width, rest);
    OneProp(c, f.tag, EncodeLE(v, f.width), rest, c.(extra := Fields(c.extra.values[j := v])));
  }

  lemma TagsDiffer(k: Kind, j: nat)
    requires j < |Layout(k)|
    ensures IndexOf(Layout(k), Layout(k)[j].tag) == j && Layout(k)[j].tag != END
  {
    var i := IndexOf(Layout(k), Layout(k)[j].tag);
  }

  lemma EntryBack(c: Condition, e: D.IntervalInfo, tail: seq<byte>)
    requires c.extra.OverTime? && Int32(e.timeLeft) && Int32(e.value) && Int32(e.interval)
    ensures Unserialized(c, EntryBytes(e) + tail) == Unserialized(WithEntry(c, e), tail)
  {
    hide Unserialized, Word, Signed, EncodeLE, DecodeLE;
    var a, b, d := EncodeLE(Word(e.timeLeft), 4), EncodeLE(Word(e.value), 4), EncodeLE(Word(e.interval), 4);
    var s := (a + (b + d)) + tail;
    assert s[..4] == a && s[4..8] == b && s[8..12] == d && s[12..] == tail;
    SignedWord(e.timeLeft);
    SignedWord(e.value);
    SignedWord(e.interval);
    EncodeFits(Word(e.timeLeft), 4);
    EncodeFits(Word(e.value), 4);
    EncodeFits(Word(e.interval), 4);
    OneProp(c, INTERVALDATA, a + (b + d), tail, WithEntry(c, e));
    assert EntryBytes(e) + tail == [INTERVALDATA] + s;
  }

  lemma {:induction false} EntriesBack(c: Condition, entries: seq<D.IntervalInfo>, tail: seq<byte>)
    requires c.extra.OverTime? && c.ticks >= 0
    requires forall k :: 0 <= k < |entries| ==>
               Int32(entries[k].timeLeft) && Int32(entries[k].value) && Int32(entries[k].interval) && entries[k].interval >= 0
    ensures Unserialized(c, EntriesBytes(entries) + tail)
         == Unserialized(c.(ticks := c.ticks + D.Intervals(entries), extra := c.extra.(entries := c.extra.entries + entries)), tail)
    decreases |entries|
  {
    hide Unserialized, EntryBytes;
    if entries == [] {
      assert EntriesBytes(entries) + tail == tail && c.extra.entries + entries == c.extra.entries;
    } else {
      var e, rest := entries[0], entries[1..];
      EntryBack(c, e, EntriesBytes(rest) + tail);
      assert EntriesBytes(entries) + tail == EntryBytes(e) + (EntriesBytes(rest) + tail);
      EntriesBack(WithEntry(c, e), rest, tail);
      assert (c.extra.entries + [e]) + rest == c.extra.entries + entries;
    }
  }

  lemma OneSkill(c: Condition, v: int, rest: seq<byte>)
    requires c.extra.Bonuses? && c.extra.nextSkill < |c.extra.skills| && Int32(v)
    ensures Unserialized(c, Tagged(SKILLS, Word(v), 4) + rest)
         == Unserialized(c.(extra := c.extra.(skills := c.extra.skills[c.extra.nextSkill := v], nextSkill := c.extra.nextSkill + 1)), rest)
  {
    hide Unserialized, Word, Signed;
    var c' := c.(extra := c.extra.(skills := c.extra.skills[c.extra.nextSkill := v], nextSkill := c.extra.nextSkill + 1));
    SignedWord(v);
    TakeBack(SKILLS, Word(v), 4, rest);
    TakeEncoded(Word(v), 4, rest);
    OneProp(c, SKILLS, EncodeLE(Word(v), 4), rest, c');
  }

  lemma {:induction false} SkillsBack(c: Condition, skills: seq<int>, tail: seq<byte>)
    requires c.extra.Bonuses? && |skills| == |c.extra.skills| && c.extra.nextSkill <= |skills|
    requires forall k :: 0 <= k < |skills| ==> Int32(skills[k])
    requires c.extra.skills[..c.extra.nextSkill] == skills[..c.extra.nextSkill]
    ensures Unserialized(c, WordsBytes(SKILLS, skills[c.extra.nextSkill..]) + tail)
         == Unserialized(c.(extra := c.extra.(skills := skills, nextSkill := |skills|)), tail)
    decreases |skills| - c.extra.nextSkill
  {
    hide Unserialized, Word, Signed, Tagged;
    var k := c.extra.nextSkill;
    if k == |skills| {
      assert c.extra.skills == skills;
      assert WordsBytes(SKILLS, skills[k..]) + tail == tail;
    } else {
      var rest := WordsBytes(SKILLS, skills[k + 1..]) + tail;
      assert skills[k..][1..] == skills[k + 1..];
      OneSkill(c, skills[k], rest);
      assert WordsBytes(SKILLS, skills[k..]) + tail == Tagged(SKILLS, Word(skills[k]), 4) + rest;
      SkillsBack(c.(extra := c.extra.(skills := c.extra.skills[k := skills[k]], nextSkill := k + 1)), skills, tail);
    }
  }

  lemma OneStat(c: Condition, v: int, rest: seq<byte>)
    requires c.extra.Bonuses? && c.extra.nextStat < |c.extra.stats| && Int32(v)
    ensures Unserialized(c, Tagged(STATS, Word(v), 4) + rest)
         == Unserialized(c.(extra := c.extra.(stats := c.extra.stats[c.extra.nextStat := v], nextStat := c.extra.nextStat + 1)), rest)
  {
    hide Unserialized, Word, Signed;
    var c' := c.(extra := c.extra.(stats := c.extra.stats[c.extra.nextStat := v], nextStat := c.extra.nextStat + 1));
    SignedWord(v);
    TakeBack(STATS, Word(v), 4, rest);
    TakeEncoded(Word(v), 4, rest);
    OneProp(c, STATS, EncodeLE(Word(v), 4), rest, c');
  }

  lemma {:induction false} StatsBack(c: Condition, stats: seq<int>, tail: seq<byte>)
    requires c.extra.Bonuses? && |stats| == |c.extra.stats| && c.extra.nextStat <= |stats|
    requires forall k :: 0 <= k < |stats| ==> Int32(stats[k])
    requires c.extra.stats[..c.extra.nextStat] == stats[..c.extra.nextStat]
    ensures Unserialized(c, WordsBytes(STATS, stats[c.extra.nextStat..]) + tail)
         == Unserialized(c.(extra := c.extra.(stats := stats, nextStat := |stats|)), tail)
    decreases |stats| - c.extra.nextStat
  {
    hide Unserialized, Word, Signed, Tagged;
    var k := c.extra.nextStat;
    if k == |stats| {
      assert c.extra.stats == stats;
      assert WordsBytes(STATS, stats[k..]) + tail == tail;
    } else {
      var rest := WordsBytes(STATS, stats[k + 1..]) + tail;
      assert stats[k..][1..] == stats[k + 1..];
      OneStat(c, stats[k], rest);
      assert WordsBytes(STATS, stats[k..]) + tail == Tagged(STATS, Word(stats[k]), 4) + rest;
      StatsBack(c.(extra := c.extra.(stats := c.extra.stats[k := stats[k]], nextStat := k + 1)), stats, tail);
    }
  }

  lemma EndBack(c: Condition, tail: seq<byte>)
    ensures Unserialized(c, [END] + tail) == Step(true, c, tail)
  {
    assert ([END] + tail)[1..] == tail;
  }

  lemma DamageBack(c: Condition, blank: Condition, tail: seq<byte>)
    requires WellFormed(c) && c.extra.OverTime? && blank == c.(ticks := 0, extra := Blank(Damage))
    ensures Unserialized(blank, ExtraBytes(c) + tail) == Unserialized(Restored(c), tail)
  {
    hide Unserialized, Word, Signed, Tagged, EntriesBytes, KindOf;
    var x := c.extra;
    var d := if x.delayed then 1 else 0;
    var t2 := EntriesBytes(x.entries) + tail;
    var t1 := Tagged(PERIODDAMAGE, Word(x.periodDamage), 4) + t2;
    Powers();
    SignedWord(x.periodDamage);
    assert ExtraBytes(c) + tail == Tagged(DELAYED, d, 1) + t1;
    TakeBack(DELAYED, d, 1, t1);
    TakeEncoded(d, 1, t1);
    var c1 := blank.(extra := OverTime(x.delayed, 0, []));
    OneProp(blank, DELAYED, EncodeLE(d, 1), t1, c1);
    TakeBack(PERIODDAMAGE, Word(x.periodDamage), 4, t2);
    TakeEncoded(Word(x.periodDamage), 4, t2);
    var c2 := blank.(extra := OverTime(x.delayed, x.periodDamage, []));
    OneProp(c1, PERIODDAMAGE, EncodeLE(Word(x.periodDamage), 4), t2, c2);
    EntriesBack(c2, x.entries, tail);
    assert [] + x.entries == x.entries;
  }

  lemma BonusesBack(c: Condition, blank: Condition, tail: seq<byte>)
    requires WellFormed(c) && c.extra.Bonuses? && blank == c.(extra := Blank(Attributes))
    ensures Unserialized(blank, ExtraBytes(c) + tail) == Unserialized(Restored(c), tail)
  {
    hide Unserialized, WordsBytes, KindOf;
    var x := c.extra;
    var t1 := WordsBytes(STATS, x.stats) + tail;
    assert ExtraBytes(c) + tail == WordsBytes(SKILLS, x.skills) + t1;
    assert x.skills[0..] == x.skills && x.stats[0..] == x.stats;
    SkillsBack(blank, x.skills, t1);
    StatsBack(blank.(extra := blank.extra.(skills := x.skills, nextSkill := SKILL_COUNT)), x.stats, tail);
  }

  /** One condition: everything up to its end tag is read, and the restored condition comes back. */
  lemma ConditionBack(c: Condition, tail: seq<byte>)
    requires WellFormed(c)
    ensures Created(Serialized(c) + tail).Some?
    ensures var (blank, rest) := Created(Serialized(c) + tail).value;
            Unserialized(blank, rest) == Step(true, Restored(c), tail)
  {
    hide Unserialized, Header, ExtraBytes, Created, KindOf;
    var blank := c.(ticks := if c.kind == Damage then 0 else c.ticks, extra := Blank(c.kind));
    var t := ExtraBytes(c) + ([END] + tail);
    assert Serialized(c) + tail == Header(c) + t by { Chain(Header(c), ExtraBytes(c), [END], tail); }
    HeaderBack(c, t);
    EndBack(Restored(c), tail);
    match c.extra
    case Fields(values) =>
      var layout := Layout(c.kind);
      assert layout[0..] == layout && values[0..] == values && blank.extra.values[..0] == values[..0];
      assert ExtraBytes(c) == FieldBytes(layout, values) by { FieldsOnly(c); }
      FieldsBack(blank, values, 0, [END] + tail);
    case OverTime(_, _, _) => DamageBack(c, blank, [END] + tail);
    case Bonuses(_, _, _, _) => BonusesBack(c, blank, [END] + tail);
  }

  lemma FieldsOnly(c: Condition)
    requires c.extra.Fields?
    ensures ExtraBytes(c) == FieldBytes(Layout(c.kind), c.extra.values)
  {
  }

  lemma Chain(a: seq<byte>, b: seq<byte>, c: seq<byte>, d: seq<byte>)
    ensures (a + (b + c)) + d == a + (b + (c + d))
  {
  }

  // ---------- the whole list ----------

  function Kept(list: seq<Condition>): seq<Condition> {
    if list == [] then [] else (if Persistent(list[0]) then [Restored(list[0])] else []) + Kept(list[1..])
  }

  function Reversed(list: seq<Condition>): seq<Condition> {
    if list == [] then [] else Reversed(list[1..]) + [list[0]]
  }

  /** Save and load: the persistent conditions come back, in reverse order. */
  lemma {:induction false} LoadSaved(list: seq<Condition>)
    requires forall k :: 0 <= k < |list| ==> WellFormed(list[k])
    ensures Loaded(Saved(list)) == Reversed(Kept(list))
    decreases |list|
  {
    hide WellFormed, Restored, Serialized, Unserialized, Created, Persistent;
    if list == [] {
      NothingCreated();
    } else {
      LoadSaved(list[1..]);
      if Persistent(list[0]) {
        ConditionBack(list[0], Saved(list[1..]));
        assert Kept(list) == [Restored(list[0])] + Kept(list[1..]);
        assert Kept(list)[1..] == Kept(list[1..]);
      } else {
        assert Saved(list) == Saved(list[1..]) && Kept(list) == Kept(list[1..]);
      }
    }
  }

  lemma NothingCreated()
    ensures Created([]) == None
  {
  }

  // ---------- the stream at work ----------

  lemma FirstByte(s: seq<byte>)
    requires s != []
    ensures TakeLE(s, 1) == Some((s[0] as nat, s[1..]))
  {
    assert s[..1] == [s[0]];
    assert DecodeLE([s[0]]) == s[0] + 256 * DecodeLE([]);
  }

  method ReadTagged(stream: PropStream, tag: byte, n: nat) returns (ok: bool, v: nat)
    requires stream.Valid()
    modifies stream
    ensures stream.Valid() && |stream.Rest()| <= |old(stream.Rest())|
    ensures ok == TakeTagged(old(stream.Rest()), tag, n).Some?
    ensures ok ==> TakeTagged(old(stream.Rest()), tag, n) == Some((v, stream.Rest()))
  {
    ghost var s := stream.Rest();
    v := 0;
    var attr;
    ok, attr := stream.Read(1);
    if ok {
      FirstByte(s);
    }
    ok := ok && attr == tag;
    if ok {
      ok, v := stream.Read(n);
    }
  }

  /** createCondition from a stream. */
  method CreateCondition(stream: PropStream) returns (c: Option<Condition>)
    requires stream.Valid()
    modifies stream
    ensures stream.Valid() && |stream.Rest()| <= |old(stream.Rest())|
    ensures c.Some? == Created(old(stream.Rest())).Some?
    ensures c.Some? ==> Created(old(stream.Rest())) == Some((c.value, stream.Rest()))
  {
    hide TakeTagged, KindOf, Blank, Signed, Signed8;
    var ok, ctype, id, ticks, buff, subId;
    ok, ctype := ReadTagged(stream, TYPE, 4);
    if !ok { return None; }
    ok, id := ReadTagged(stream, ID, 4);
    if !ok { return None; }
    ok, ticks := ReadTagged(stream, TICKS, 4);
    if !ok { return None; }
    ok, buff := ReadTagged(stream, ISBUFF, 1);
    if !ok { return None; }
    ok, subId := ReadTagged(stream, SUBID, 4);
    if !ok { return None; }
    match KindOf(ctype)
    case None => return None;
    case Some(k) =>
      return Some(Condition(k, ctype, Signed8(id), if k == Damage then 0 else Signed(ticks), buff != 0, subId, Blank(k)));
  }

  /** unserializeProp of the base class. */
  method UnserializeCommon(c: Condition, tag: byte, stream: PropStream) returns (ok: bool, r: Condition)
    requires stream.Valid()
    modifies stream
    ensures stream.Valid() && Step(ok, r, stream.Rest()) == CommonProp(c, tag, old(stream.Rest()))
  {
    hide Signed, Signed8;
    r := c;
    var v;
    if tag == TYPE {
      ok, v := stream.Read(4);
      if ok { r := c.(ctype := v); }
    } else if tag == ID {
      ok, v := stream.Read(4);
      if ok { r := c.(id := Signed8(v)); }
    } else if tag == TICKS {
      ok, v := stream.Read(4);
      if ok { r := c.(ticks := Signed(v)); }
    } else if tag == ISBUFF {
      ok, v := stream.Read(1);
      if ok { r := c.(isBuff := v != 0); }
    } else if tag == SUBID {
      ok, v := stream.Read(4);
      if ok { r := c.(subId := v); }
    } else {
      ok := tag == END;
    }
  }

  method UnserializeDamage(c: Condition, tag: byte, stream: PropStream) returns (ok: bool, r: Condition)
    requires stream.Valid() && c.extra.OverTime?
    modifies stream
    ensures stream.Valid() && Step(ok, r, stream.Rest()) == DamageProp(c, tag, old(stream.Rest()))
  {
    hide Signed, CommonProp;
    r := c;
    var v;
    if tag == DELAYED {
      ok, v := stream.Read(1);
      if ok { r := c.(extra := c.extra.(delayed := v != 0)); }
    } else if tag == PERIODDAMAGE {
      ok, v := stream.Read(4);
      if ok { r := c.(extra := c.extra.(periodDamage := Signed(v))); }
    } else if tag == OWNER {
      ok := stream.Skip(4);
    } else if tag == INTERVALDATA {
      ghost var s := stream.Rest();
      var raw;
      ok, raw := stream.ReadRaw(12);
      if ok {
        assert s[..4] == raw[..4] && s[4..8] == raw[4..8] && s[8..12] == raw[8..12];
        var e := D.IntervalInfo(Signed(DecodeLE(raw[..4])), Signed(DecodeLE(raw[4..8])), Signed(DecodeLE(raw[8..12])));
        r := WithEntry(c, e);
      }
    } else {
      ok, r := UnserializeCommon(c, tag, stream);
    }
  }

  method UnserializeBonus(c: Condition, tag: byte, stream: PropStream) returns (ok: bool, r: Condition)
    requires stream.Valid() && c.extra.Bonuses?
    modifies stream
    ensures stream.Valid() && Step(ok, r, stream.Rest()) == BonusProp(c, tag, old(stream.Rest()))
  {
    hide Signed, CommonProp;
    r := c;
    var x := c.extra;
    var v;
    if tag == SKILLS {
      if x.nextSkill >= |x.skills| { return false, c; }
      ok, v := stream.Read(4);
      if ok { r := c.(extra := x.(skills := x.skills[x.nextSkill := Signed(v)], nextSkill := x.nextSkill + 1)); }
    } else if tag == STATS {
      if x.nextStat >= |x.stats| { return false, c; }
      ok, v := stream.Read(4);
      if ok { r := c.(extra := x.(stats := x.stats[x.nextStat := Signed(v)], nextStat := x.nextStat + 1)); }
    } else {
      ok, r := UnserializeCommon(c, tag, stream);
    }
  }

  method UnserializeField(c: Condition, tag: byte, stream: PropStream) returns (ok: bool, r: Condition)
    requires stream.Valid() && c.extra.Fields?
    modifies stream
    ensures stream.Valid() && Step(ok, r, stream.Rest()) == FieldProp(c, tag, old(stream.Rest()))
  {
    hide Layout, CommonProp, Stored;
    r := c;
    var k := IndexOf(Layout(c.kind), tag);
    if k < |Layout(c.kind)| && k < |c.extra.values| {
      var v;
      ok, v := stream.Read(Layout(c.kind)[k].width);
      if ok { r := c.(extra := Fields(c.extra.values[k := Stored(c.kind, tag, v)])); }
    } else {
      ok, r := UnserializeCommon(c, tag, stream);
    }
  }

  /** unserialize. */
  method Unserialize(c: Condition, stream: PropStream) returns (ok: bool, r: Condition)
    requires stream.Valid()
    modifies stream
    ensures stream.Valid() && Step(ok, r, stream.Rest()) == Unserialized(c, old(stream.Rest()))
  {
    hide FieldProp, DamageProp, BonusProp;
    r := c;
    ghost var s := stream.Rest();
    while true
      invariant stream.Valid() && Unserialized(r, stream.Rest()) == Unserialized(c, s)
      decreases |stream.Rest()|
    {
      ghost var here := stream.Rest();
      var more, attr := stream.Read(1);
      if !more {
        assert here == [];
        return true, r;
      }
      FirstByte(here);
      if attr == END {
        return true, r;
      }
      match r.extra {
        case Fields(_) => ok, r := UnserializeField(r, attr, stream);
        case OverTime(_, _, _) => ok, r := UnserializeDamage(r, attr, stream);
        case Bonuses(_, _, _, _) => ok, r := UnserializeBonus(r, attr, stream);
      }
      if !ok {
        return false, r;
      }
    }
  }

  /** The condition lists of a player. */
  class Player {
    var conditions: seq<Condition>
    var storedConditionList: seq<Condition>

    constructor (conditions: seq<Condition>)
      ensures this.conditions == conditions && storedConditionList == []
    {
      this.conditions, storedConditionList := conditions, [];
    }

    /** The loop of savePlayer. */
    method SaveConditions(out: PropWriteStream)
      modifies out
      ensures out.buffer == old(out.buffer) + Saved(conditions)
    {
      hide Serialized, Persistent;
      var k := 0;
      assert conditions[0..] == conditions;
      while k < |conditions|
        invariant 0 <= k <= |conditions|
        invariant out.buffer + Saved(conditions[k..]) == old(out.buffer) + Saved(conditions)
      {
        var c := conditions[k];
        ghost var rest := Saved(conditions[k + 1..]);
        assert conditions[k..][0] == c && conditions[k..][1..] == conditions[k + 1..];
        if Persistent(c) {
          assert out.buffer + (Serialized(c) + rest) == (out.buffer + Serialized(c)) + rest;
          Serialize(c, out);
        } else {
          assert [] + rest == rest;
        }
        k := k + 1;
      }
    }

    /** The loop of loadPlayer. */
    method LoadConditions(stream: PropStream)
      requires stream.Valid()
      modifies this`storedConditionList, stream
      ensures stream.Valid()
      ensures storedConditionList == Loaded(old(stream.Rest())) + old(storedConditionList)
      ensures (exists list :: old(stream.Rest()) == Saved(list) && AllWellFormed(list)) ==> stream.Rest() == []
    {
      hide Created, Unserialized;
      ghost var s := stream.Rest();
      if list :| s == Saved(list) && AllWellFormed(list) {
        UsedUpBySaved(list);
      }
      var next := CreateCondition(stream);
      ghost var here := s;
      while next.Some?
        invariant stream.Valid() && next.Some? == Created(here).Some?
        invariant next.Some? ==> Created(here) == Some((next.value, stream.Rest()))
        invariant next == None ==> |stream.Rest()| <= |here|
        invariant Loaded(here) + storedConditionList == Loaded(s) + old(storedConditionList)
        invariant UsedUp(s) == UsedUp(here)
        decreases |here|
      {
        var ok, c := Unserialize(next.value, stream);
        ghost var after := stream.Rest();
        if ok {
          assert (Loaded(after) + [c]) + storedConditionList == Loaded(after) + ([c] + storedConditionList);
          storedConditionList := [c] + storedConditionList;
        } else {
          assert Loaded(after) + [] == Loaded(after);
        }
        here := after;
        next := CreateCondition(stream);
      }
      assert [] + storedConditionList == storedConditionList;
    }
  }

  ghost predicate AllWellFormed(list: seq<Condition>) {
    forall k :: 0 <= k < |list| ==> WellFormed(list[k])
  }

  /** The load loop ends at the end of the stream. */
  ghost predicate UsedUp(s: seq<byte>)
    decreases |s|
  {
    match Created(s)
    case None => s == []
    case Some((c, rest)) => UsedUp(Unserialized(c, rest).rest)
  }

  lemma {:induction false} UsedUpBySaved(list: seq<Condition>)
    requires AllWellFormed(list)
    ensures UsedUp(Saved(list))
    decreases |list|
  {
    hide WellFormed, Restored, Serialized, Unserialized, Created, Persistent;
    if list == [] {
      NothingCreated();
    } else {
      UsedUpBySaved(list[1..]);
      if Persistent(list[0]) {
        ConditionBack(list[0], Saved(list[1..]));
      } else {
        assert Saved(list) == Saved(list[1..]);
      }
    }
  }

  /** serialize, followed by the end tag. */
  method Serialize(c: Condition, out: PropWriteStream)
    modifies out
    ensures out.buffer == old(out.buffer) + Serialized(c)
  {
    hide Header, ExtraBytes;
    ghost var was := out.buffer;
    WriteHeader(c, out);
    SerializeExtra(c, out);
    out.WriteBytes([END]);
    assert (was + Header(c)) + (ExtraBytes(c) + [END]) == was + Serialized(c);
  }

  method WriteHeader(c: Condition, out: PropWriteStream)
    modifies out
    ensures out.buffer == old(out.buffer) + Header(c)
  {
    hide Word, Tagged;
    WriteTagged(out, TYPE, c.ctype, 4);
    WriteTagged(out, ID, Word(c.id), 4);
    WriteTagged(out, TICKS, Word(c.ticks), 4);
    WriteTagged(out, ISBUFF, if c.isBuff then 1 else 0, 1);
    WriteTagged(out, SUBID, c.subId, 4);
  }

  method WriteTagged(out: PropWriteStream, tag: byte, v: nat, n: nat)
    modifies out
    ensures out.buffer == old(out.buffer) + Tagged(tag, v, n)
  {
    out.WriteBytes([tag]);
    out.Write(v, n);
  }

  method SerializeExtra(c: Condition, out: PropWriteStream)
    modifies out
    ensures out.buffer == old(out.buffer) + ExtraBytes(c)
  {
    hide Tagged, Word, Layout;
    match c.extra {
      case Fields(values) => WriteFields(Layout(c.kind), values, out);
      case OverTime(delayed, periodDamage, entries) =>
        WriteTagged(out, DELAYED, if delayed then 1 else 0, 1);
        WriteTagged(out, PERIODDAMAGE, Word(periodDamage), 4);
        WriteEntries(entries, out);
      case Bonuses(skills, stats, _, _) =>
        WriteWords(SKILLS, skills, out);
        WriteWords(STATS, stats, out);
    }
  }

  method WriteFields(layout: seq<Field>, values: seq<nat>, out: PropWriteStream)
    modifies out
    ensures out.buffer == old(out.buffer) + FieldBytes(layout, values)
  {
    hide Tagged;
    var k := 0;
    assert layout[0..] == layout && values[0..] == values;
    while k < |layout| && k < |values|
      invariant 0 <= k <= |layout| && k <= |values|
      invariant out.buffer + FieldBytes(layout[k..], values[k..]) == old(out.buffer) + FieldBytes(layout, values)
    {
      assert layout[k..][1..] == layout[k + 1..] && values[k..][1..] == values[k + 1..];
      WriteTagged(out, layout[k].tag, values[k], layout[k].width);
      k := k + 1;
    }
  }

  method WriteEntries(entries: seq<D.IntervalInfo>, out: PropWriteStream)
    modifies out
    ensures out.buffer == old(out.buffer) + EntriesBytes(entries)
  {
    hide EntryBytes;
    var k := 0;
    assert entries[0..] == entries;
    while k < |entries|
      invariant 0 <= k <= |entries|
      invariant out.buffer + EntriesBytes(entries[k..]) == old(out.buffer) + EntriesBytes(entries)
    {
      assert entries[k..][1..] == entries[k + 1..];
      WriteEntry(entries[k], out);
      k := k + 1;
    }
  }

  method WriteEntry(e: D.IntervalInfo, out: PropWriteStream)
    modifies out
    ensures out.buffer == old(out.buffer) + EntryBytes(e)
  {
    hide Word, EncodeLE;
    out.WriteBytes([INTERVALDATA]);
    out.Write(Word(e.timeLeft), 4);
    out.Write(Word(e.value), 4);
    out.Write(Word(e.interval), 4);
  }

  method WriteWords(tag: byte, words: seq<int>, out: PropWriteStream)
    modifies out
    ensures out.buffer == old(out.buffer) + WordsBytes(tag, words)
  {
    hide Word, Tagged;
    var k := 0;
    assert words[0..] == words;
    while k < |words|
      invariant 0 <= k <= |words|
      invariant out.buffer + WordsBytes(tag, words[k..]) == old(out.buffer) + WordsBytes(tag, words)
    {
      assert words[k..][1..] == words[k + 1..];
      WriteTagged(out, tag, Word(words[k]), 4);
      k := k + 1;
    }
  }

  /** From one session to the next: the stored list is the persistent conditions in reverse, and
      nothing of the stream is left unread. */
  method SaveThenLoad(conditions: seq<Condition>) returns (stored: seq<Condition>, unread: nat)
    requires AllWellFormed(conditions)
    ensures stored == Reversed(Kept(conditions)) && unread == 0
  {
    hide Saved, Kept, Loaded, Reversed, WellFormed;
    var before := new Player(conditions);
    var out := new PropWriteStream();
    before.SaveConditions(out);
    var after := new Player([]);
    var stream := new PropStream(out.buffer);
    assert [] + Saved(conditions) == Saved(conditions);
    after.LoadConditions(stream);
    LoadSaved(conditions);
    stored, unread := after.storedConditionList, |stream.data| - stream.p;
    assert Loaded(Saved(conditions)) + [] == Loaded(Saved(conditions));
  }
}
