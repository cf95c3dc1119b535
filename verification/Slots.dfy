/**
  * A buffer as a list of fields. Each slot of the decoded record is a fold over the fields that
  * address it and over nothing else, so fields of different slots commute, unknown fields are
  * invisible, and in a slot that is not a list the last field wins.
  */
module Slots {
  import opened Prelude
  import opened Wire
  import opened Values
  import opened Reading
  import opened Merging
  import opened Accounting
  import opened Framing

  /** The slot that the field `r` addresses; `None` if its number is unknown or unreadable. */
  function SlotOf(m: Merger, r: seq<byte>): (s: Option<nat>)
    requires m.MessageMerger?
  {
    match ReadTag(true, Cursor(|r|, r))
    case Ok(((number, _), _)) =>
      if number in m.subfields then Some(m.subfields[number].index) else None
    case Err(_) => None
  }

  /** The field has a number the schema does not know, and can be skipped whole. */
  predicate Unknown(m: Merger, r: seq<byte>)
    requires m.MessageMerger?
  {
    match ReadTag(true, Cursor(|r|, r))
    case Ok(((number, wireType), c)) =>
      number !in m.subfields &&
      (match Skip(true, wireType, c)
       case Ok((_, d)) => d.limit == 0
       case Err(_) => false)
    case Err(_) => false
  }

  /** What the slot holds after the field `r` was merged into `v`, if `r` is a whole field. */
  function SlotValue(m: Merger, r: seq<byte>, v: Val): (w: Option<Val>)
    requires m.MessageMerger? && SlotOf(m, r).Some?
  {
    var ((number, wireType), c) := ReadTag(true, Cursor(|r|, r)).value;
    match MergeField(true, m.subfields[number].merger, wireType, c, v)
    case Ok((w, d)) => if d.limit == 0 then Some(w) else None
    case Err(_) => None
  }

  /** One whole field merged into a record. */
  function MergeRecord(m: Merger, r: seq<byte>, fields: seq<NamedVal>): (s: Option<seq<NamedVal>>)
    requires m.MessageMerger?
  {
    match MergeOne(true, m, Cursor(|r|, r), fields)
    case Ok((merged, c)) => if c.limit == 0 then Some(merged) else None
    case Err(_) => None
  }

  function MergeRecords(m: Merger, rs: seq<seq<byte>>, fields: seq<NamedVal>)
    : (s: Option<seq<NamedVal>>)
    requires m.MessageMerger?
  {
    if rs == [] then Some(fields)
    else
      match MergeRecord(m, rs[0], fields)
      case None => None
      case Some(merged) => MergeRecords(m, rs[1..], merged)
  }

  function Flat(rs: seq<seq<byte>>): seq<byte> {
    if rs == [] then [] else rs[0] + Flat(rs[1..])
  }

  /** The fields of slot `i` alone, merged into `v` in order. */
  function FoldSlot(m: Merger, rs: seq<seq<byte>>, i: nat, v: Val): (w: Option<Val>)
    requires m.MessageMerger?
  {
    if rs == [] then Some(v)
    else if SlotOf(m, rs[0]) != Some(i) then FoldSlot(m, rs[1..], i, v)
    else
      match SlotValue(m, rs[0], v)
      case None => None
      case Some(w) => FoldSlot(m, rs[1..], i, w)
  }

  predicate Placed(m: Merger, r: seq<byte>, arity: nat)
    requires m.MessageMerger?
  {
    match SlotOf(m, r)
    case Some(i) => i < arity
    case None => Unknown(m, r)
  }

  lemma MergeRecordBySlot(m: Merger, r: seq<byte>, fields: seq<NamedVal>)
    requires m.MessageMerger?
    ensures !Placed(m, r, |fields|) ==> MergeRecord(m, r, fields) == None
    ensures Placed(m, r, |fields|) && SlotOf(m, r).None? ==> MergeRecord(m, r, fields) == Some(fields)
    ensures Placed(m, r, |fields|) && SlotOf(m, r).Some? ==>
      var i := SlotOf(m, r).value;
      MergeRecord(m, r, fields) ==
      match SlotValue(m, r, fields[i].value)
      case None => None
      case Some(w) => Some(fields[i := NamedVal(fields[i].name, w)])
  {
    hide ReadTag, Skip, MergeField;
  }

  /** The outcome slot by slot. */
  ghost predicate BySlot(m: Merger, rs: seq<seq<byte>>, fields: seq<NamedVal>, out: seq<NamedVal>)
    requires m.MessageMerger?
  {
    && |out| == |fields|
    && forall i :: 0 <= i < |fields| ==>
         && FoldSlot(m, rs, i, fields[i].value).Some?
         && out[i] == NamedVal(fields[i].name, FoldSlot(m, rs, i, fields[i].value).value)
  }

  ghost predicate Mergeable(m: Merger, rs: seq<seq<byte>>, fields: seq<NamedVal>)
    requires m.MessageMerger?
  {
    && (forall r :: r in rs ==> Placed(m, r, |fields|))
    && forall i :: 0 <= i < |fields| ==> FoldSlot(m, rs, i, fields[i].value).Some?
  }

  /**
    * A list of fields merges exactly when each of them is placed and each slot's own fields
    * merge, and then every slot holds the fold of its own fields.
    */
  lemma {:induction false} SlotsAreIndependent(m: Merger, rs: seq<seq<byte>>, fields: seq<NamedVal>)
    requires m.MessageMerger?
    ensures MergeRecords(m, rs, fields).Some? <==> Mergeable(m, rs, fields)
    ensures MergeRecords(m, rs, fields).Some? ==>
      BySlot(m, rs, fields, MergeRecords(m, rs, fields).value)
    decreases |rs|
  {
    hide SlotOf, SlotValue, MergeRecord, Placed;
    if rs != [] {
      MergeRecordBySlot(m, rs[0], fields);
      assert rs[0] in rs;
      assert forall r :: r in rs <==> r == rs[0] || r in rs[1..];
      match MergeRecord(m, rs[0], fields)
      case None =>
        if Placed(m, rs[0], |fields|) {
          var j := SlotOf(m, rs[0]).value;
          PlacedInRange(m, rs[0], |fields|);
          assert FoldSlot(m, rs, j, fields[j].value).None?;
        }
      case Some(merged) =>
        PlacedInRange(m, rs[0], |fields|);
        SlotsAreIndependent(m, rs[1..], merged);
        forall i | 0 <= i < |fields|
          ensures FoldSlot(m, rs, i, fields[i].value) == FoldSlot(m, rs[1..], i, merged[i].value)
          ensures merged[i].name == fields[i].name
        {}
  }
  }

  lemma PlacedInRange(m: Merger, r: seq<byte>, arity: nat)
    requires m.MessageMerger? && Placed(m, r, arity)
    ensures SlotOf(m, r).Some? ==> SlotOf(m, r).value < arity
  {}

  // ---------------------------------------------------------------------------------------
  // Reordering
  // ---------------------------------------------------------------------------------------

  /** The fields that address slot `i`, in order. */
  function Project(m: Merger, rs: seq<seq<byte>>, i: nat): seq<seq<byte>>
    requires m.MessageMerger?
  {
    if rs == [] then []
    else (if SlotOf(m, rs[0]) == Some(i) then [rs[0]] else []) + Project(m, rs[1..], i)
  }

  lemma {:induction false} FoldOfProject(m: Merger, rs: seq<seq<byte>>, i: nat, v: Val)
    requires m.MessageMerger?
    ensures FoldSlot(m, Project(m, rs, i), i, v) == FoldSlot(m, rs, i, v)
    decreases |rs|
  {
    hide SlotOf, SlotValue;
    if rs != [] {
      var rest := Project(m, rs[1..], i);
      if SlotOf(m, rs[0]) == Some(i) {
        assert Project(m, rs, i) == [rs[0]] + rest;
        assert Project(m, rs, i)[1..] == rest;
        if SlotValue(m, rs[0], v).Some? {
          FoldOfProject(m, rs[1..], i, SlotValue(m, rs[0], v).value);
        }
      } else {
        assert Project(m, rs, i) == rest;
        FoldOfProject(m, rs[1..], i, v);
      }
    }
  }

  /** The same fields, with those of each slot in the same order. */
  ghost predicate SameUpToSlotOrder(m: Merger, rs: seq<seq<byte>>, ss: seq<seq<byte>>)
    requires m.MessageMerger?
  {
    && (forall r :: r in rs <==> r in ss)
    && forall i: nat :: Project(m, rs, i) == Project(m, ss, i)
  }

  /** Order independence: only the order among the fields of one slot matters. */
  lemma ReorderFields(m: Merger, rs: seq<seq<byte>>, ss: seq<seq<byte>>, fields: seq<NamedVal>)
    requires m.MessageMerger? && SameUpToSlotOrder(m, rs, ss)
    ensures MergeRecords(m, rs, fields) == MergeRecords(m, ss, fields)
  {
    hide SlotOf, SlotValue, MergeRecord, Placed, MergeRecords, FoldSlot, Project;
    SlotsAreIndependent(m, rs, fields);
    SlotsAreIndependent(m, ss, fields);
    forall i | 0 <= i < |fields|
      ensures FoldSlot(m, rs, i, fields[i].value) == FoldSlot(m, ss, i, fields[i].value)
    {
      assert Project(m, rs, i) == Project(m, ss, i);
      FoldOfProject(m, rs, i, fields[i].value);
      FoldOfProject(m, ss, i, fields[i].value);
    }
    if MergeRecords(m, rs, fields).Some? {
      assert MergeRecords(m, rs, fields).value == MergeRecords(m, ss, fields).value;
    }
  }

  /** A field of unknown number changes nothing, wherever it stands. */
  lemma {:induction false} UnknownIsInvisible(m: Merger, before: seq<seq<byte>>, u: seq<byte>,
                                              after: seq<seq<byte>>, fields: seq<NamedVal>)
    requires m.MessageMerger? && Unknown(m, u)
    ensures MergeRecords(m, before + [u] + after, fields) == MergeRecords(m, before + after, fields)
    decreases |before|
  {
    hide MergeRecord, Unknown;
    if before == [] {
      assert (before + [u] + after)[1..] == after;
      assert before + after == after;
      UnknownMerges(m, u, fields);
    } else {
      assert (before + [u] + after)[1..] == before[1..] + [u] + after;
      assert (before + after)[1..] == before[1..] + after;
      if MergeRecord(m, before[0], fields).Some? {
        UnknownIsInvisible(m, before[1..], u, after, MergeRecord(m, before[0], fields).value);
      }
    }
  }

  lemma UnknownMerges(m: Merger, u: seq<byte>, fields: seq<NamedVal>)
    requires m.MessageMerger? && Unknown(m, u)
    ensures MergeRecord(m, u, fields) == Some(fields)
  {
    hide ReadTag, Skip, MergeField;
  }

  // ---------------------------------------------------------------------------------------
  // Last one wins
  // ---------------------------------------------------------------------------------------

  predicate Overwrites(m: Merger) {
    match m
    case ItemMerger(_, form) => !form.IntoList?
    case MessageMerger(shape, _, _) => shape.OptionalRecord?
    case VariantMerger(_, _) => true
  }

  function MergerOf(m: Merger, r: seq<byte>): Merger
    requires m.MessageMerger? && SlotOf(m, r).Some?
  {
    m.subfields[ReadTag(true, Cursor(|r|, r)).value.0.0].merger
  }

  lemma {:induction false} LastWins(m: Merger, rs: seq<seq<byte>>, r: seq<byte>, i: nat, v: Val, w: Val)
    requires m.MessageMerger?
    requires SlotOf(m, r) == Some(i) && Overwrites(MergerOf(m, r))
    requires FoldSlot(m, rs, i, v).Some?
    ensures FoldSlot(m, rs + [r], i, v) == SlotValue(m, r, w)
    decreases |rs|
  {
    hide SlotOf;
    if rs == [] {
      assert (rs + [r])[1..] == [] && (rs + [r])[0] == r;
      OverwriteIgnores(m, r, v, w);
      assert FoldSlot(m, [], i, v) == Some(v);
      assert SlotValue(m, r, v).Some? ==> FoldSlot(m, [], i, SlotValue(m, r, v).value) == SlotValue(m, r, v);
    } else {
      hide SlotValue;
      assert (rs + [r])[1..] == rs[1..] + [r] && (rs + [r])[0] == rs[0];
      var v1 := if SlotOf(m, rs[0]) == Some(i) then SlotValue(m, rs[0], v).value else v;
      LastWins(m, rs[1..], r, i, v1, w);
    }
  }

  lemma OverwriteIgnores(m: Merger, r: seq<byte>, v: Val, w: Val)
    requires m.MessageMerger? && SlotOf(m, r).Some?
    requires Overwrites(MergerOf(m, r))
    ensures SlotValue(m, r, v) == SlotValue(m, r, w)
  {
    hide ReadTag, MergeField, Overwrites;
    var ((number, wireType), c) := ReadTag(true, Cursor(|r|, r)).value;
    OverwriteField(MergerOf(m, r), wireType, c, v, w);
  }

  lemma OverwriteField(m: Merger, wireType: WireType, c: Cursor, v: Val, w: Val)
    requires Overwrites(m)
    ensures MergeField(true, m, wireType, c, v) == MergeField(true, m, wireType, c, w)
  {
    hide MergeNested, DecodeItem;
  }

  // ---------------------------------------------------------------------------------------
  // From lists of fields to buffers
  // ---------------------------------------------------------------------------------------

  /** Merging the concatenation of whole fields is merging them one by one. */
  lemma {:induction false} MergeFlat(strict: bool, m: Merger, rs: seq<seq<byte>>, fields: seq<NamedVal>,
                                     k: nat, rest: seq<byte>)
    requires m.MessageMerger? && FieldMergers(m)
    requires MergeRecords(m, rs, fields).Some?
    ensures MergeFields(strict, m, Cursor(|Flat(rs)| + k, Flat(rs) + rest), fields)
         == MergeFields(strict, m, Cursor(k, rest), MergeRecords(m, rs, fields).value)
    decreases |rs|
  {
    hide MergeOne;
    if rs == [] {
      assert Flat(rs) + rest == rest;
    } else {
      var r, tail := rs[0], Flat(rs[1..]);
      var merged := MergeRecord(m, r, fields).value;
      assert |r| > 0 by { EmptyIsNoField(m, fields); }
      MergeOneSound(m, Cursor(|r|, r), fields);
      assert MergeFields(true, m, Cursor(|r|, r), fields) == Ok((merged, Cursor(0, [])));
      assert Flat(rs) + rest == r + (tail + rest);
      MergeIsFold(strict, m, r, fields, merged, |tail| + k, tail + rest);
      MergeFlat(strict, m, rs[1..], merged, k, rest);
    }
  }

  lemma EmptyIsNoField(m: Merger, fields: seq<NamedVal>)
    requires m.MessageMerger?
    ensures MergeRecord(m, [], fields) == None
  {}

  /** Requests that differ only in the order of fields of different slots decode alike. */
  lemma ReorderRequest(strict: bool, m: Merger, rs: seq<seq<byte>>, ss: seq<seq<byte>>)
    requires m.MessageMerger? && m.shape.InnerRecord? && FieldMergers(m)
    requires SameUpToSlotOrder(m, rs, ss)
    requires MergeRecords(m, rs, m.defaults).Some?
    requires |Flat(rs)| <= U32_MAX && |Flat(ss)| <= U32_MAX
    ensures DecodeRequest(strict, m, Flat(rs)) == Ok(Record(MergeRecords(m, rs, m.defaults).value))
    ensures DecodeRequest(strict, m, Flat(ss)) == DecodeRequest(strict, m, Flat(rs))
  {
    ReorderFields(m, rs, ss, m.defaults);
    RequestOfFields(strict, m, rs);
    RequestOfFields(strict, m, ss);
  }

  lemma RequestOfFields(strict: bool, m: Merger, rs: seq<seq<byte>>)
    requires m.MessageMerger? && m.shape.InnerRecord? && FieldMergers(m)
    requires MergeRecords(m, rs, m.defaults).Some?
    requires |Flat(rs)| <= U32_MAX
    ensures DecodeRequest(strict, m, Flat(rs)) == Ok(Record(MergeRecords(m, rs, m.defaults).value))
  {
    hide MergeOne, MergeRecords;
    MergeFlat(strict, m, rs, m.defaults, 0, []);
    assert Flat(rs) + [] == Flat(rs);
  }
}
