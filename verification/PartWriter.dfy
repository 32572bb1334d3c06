/** The parts of one publication.

Members are taken into parts in the order they are submitted. Encoding runs beside
the publication in the program and is drained before anything depends on where a
member landed, so a member is placed here as it is submitted. What things encode to is
given by a format, and so is what a member costs the table of its part: a part and an
offset in it are one member's, and stand for it.
*/
module PartWriters {
  import opened Refs
  import opened Geometries
  import opened Roots
  import opened Sums

  const ENVELOPE_HEADER: nat := 32
  const PART_TRAILER: nat := 32
  const PART_TARGET: nat := 0x400_0000
  const EMPTY_TABLE: nat := 2
  const MAXIMUM_TABLE_SIZE: nat := 0x10_0000
  const MAXIMUM_STATE_SIZE: nat := 0x400_0000

  /** The members a part fills to, and the page that fills it. */
  const BODY_BOUND: nat := PART_TARGET + PAGE_SIZE_2MIB + ENVELOPE_HEADER

  /** How long a message is, and its envelope. */
  datatype Encoded = Encoded(message: nat, envelope: nat) {
    predicate Valid() { ENVELOPE_HEADER <= envelope <= message + ENVELOPE_HEADER }
  }

  /** What a store is configured with and what its codec makes of things: the bytes a part fills to, a member's
      envelope, what the member at a place of a part costs the part's table, at its widest before it is placed and
      exactly after, and a segment, a root and the bound on a root. */
  datatype Format = Format(
    partBytes: nat,
    encode: seq<Byte> -> nat,
    widest: (nat, nat) -> nat,
    row: (nat, nat) -> nat,
    segment: Segment -> Encoded,
    root: Index -> Encoded,
    maximumRoot: nat)
  {
    /** An envelope that does not compress falls back to its contents and a header. */
    ghost predicate Valid() {
      && (forall data :: ENVELOPE_HEADER <= encode(data) <= |data| + ENVELOPE_HEADER)
      && (forall part, offset :: row(part, offset) <= widest(part, offset))
      && (forall part, offset :: EMPTY_TABLE + widest(part, offset) <= MAXIMUM_TABLE_SIZE)
      && (forall held :: segment(held).Valid()) && (forall index :: root(index).Valid())
    }

    /** What may be in hand when a member joins a part: nothing, or less than a part fills to. */
    predicate InHand(body: nat) { body == 0 || body < partBytes }

    /** The envelopes that fit behind anything that may be in hand, whatever the table is. */
    function Slack(): int { BODY_BOUND - if partBytes == 0 then 0 else partBytes - 1 }
  }

  /** A part with a member behind what was in hand, and with its table, is within its bound. */
  predicate Behind(format: Format, data: seq<Byte>, body: nat, table: nat) {
    body + format.encode(data) + table + PART_TRAILER <= MAXIMUM_PART_SIZE
  }

  /** A member fits behind everything that may be in hand, with every table a part may have, exactly when its envelope
      is within the slack. */
  lemma FitsBehindIff(format: Format, data: seq<Byte>)
    ensures format.encode(data) <= format.Slack() <==>
            forall body: nat, table: nat :: format.InHand(body) && table <= MAXIMUM_TABLE_SIZE ==>
              Behind(format, data, body, table)
  {
    if format.encode(data) > format.Slack() {
      var body := if format.partBytes == 0 then 0 else format.partBytes - 1;
      assert format.InHand(body) && !Behind(format, data, body, MAXIMUM_TABLE_SIZE);
    }
  }

  /** A page fits behind everything in a store that fills its parts to no more than the target. */
  lemma PageFitsBehind(format: Format, data: seq<Byte>)
    requires format.Valid() && format.partBytes <= PART_TARGET && |data| <= PAGE_SIZE_2MIB
    ensures format.encode(data) <= format.Slack()
  {
  }

  /** A member the writer placed: where, under which identity, and with which bytes. */
  ghost predicate Placed(members: map<MemberKey, Member>, ref: Ref, origin: Ref, data: seq<Byte>, at: Location) {
    && at.ref == ref
    && at.origin == origin
    && at.length > 0
    && at.Key() in members
    && members[at.Key()] == Member(data, at.length)
  }

  /** Members are only ever added. */
  ghost predicate Grown(before: map<MemberKey, Member>, after: map<MemberKey, Member>) {
    forall key :: key in before ==> key in after && after[key] == before[key]
  }

  /** What each member of a part costs it: its envelope, and its row of the table. */
  ghost function Weights(format: Format, members: map<MemberKey, Member>, part: nat): map<MemberKey, nat> {
    map key | key in members && key.part == part :: members[key].length + format.row(part, key.offset)
  }

  /** The size of a part: its members, its table and its trailer. */
  ghost function PartBytes(format: Format, members: map<MemberKey, Member>, part: nat): nat {
    Sum(Weights(format, members, part)) + EMPTY_TABLE + PART_TRAILER
  }

  /** Every part is within its bound. */
  ghost predicate PartsFit(format: Format, members: map<MemberKey, Member>) {
    forall key :: key in members ==> PartBytes(format, members, key.part) <= MAXIMUM_PART_SIZE
  }

  /** How members lie: in parts none of which is empty, apart from each other, each as long as its envelope, and joining
      a part before it has filled. */
  ghost predicate Packed(format: Format, ref: Ref, members: map<MemberKey, Member>) {
    && (forall key :: key in members ==>
          && key.ref == ref && key.part < |members|
          && members[key].length == format.encode(members[key].data) && format.InHand(key.offset))
    && (forall a, b :: a in members && b in members && a != b && a.part == b.part ==> Apart(members, a, b))
  }

  /** Two members of one part do not overlap. */
  ghost predicate Apart(members: map<MemberKey, Member>, a: MemberKey, b: MemberKey)
    requires a in members && b in members
  {
    a.offset + members[a].length <= b.offset || b.offset + members[b].length <= a.offset
  }

  /** One more member of a part makes that part larger by what it costs, and no other. */
  lemma OneMoreWeighs(format: Format, members: map<MemberKey, Member>, key: MemberKey, member: Member, part: nat)
    requires key !in members
    ensures PartBytes(format, members[key := member], part) ==
            PartBytes(format, members, part) +
            if key.part == part then member.length + format.row(part, key.offset) else 0
  {
    var was, now := Weights(format, members, part), Weights(format, members[key := member], part);
    if key.part == part {
      SumAdd(was, key, member.length + format.row(part, key.offset));
      assert now == was[key := member.length + format.row(part, key.offset)];
    } else {
      assert now == was;
    }
  }

  /** How the members of a publication lie, and what its parts come to, the one in hand among them. */
  ghost predicate Laid(format: Format, ref: Ref, members: map<MemberKey, Member>, next: nat, used: nat, table: nat,
                       open: bool)
  {
    && Packed(format, ref, members)
    && next + (if open then 1 else 0) <= |members|
    && used + table + PART_TRAILER == PartBytes(format, members, next)
    && (forall key :: key in members && key.part < next ==> PartBytes(format, members, key.part) <= MAXIMUM_PART_SIZE)
  }

  /** Every member is in a part already sealed, within the bound, or in the part in hand. */
  ghost predicate Within(members: map<MemberKey, Member>, next: nat, used: nat, open: bool) {
    forall key :: key in members ==>
      && members[key].length > 0
      && if key.part < next then key.offset + members[key].length <= MAXIMUM_PART_SIZE
         else open && key.part == next && key.offset + members[key].length <= used
  }

  lemma OneMorePacked(format: Format, ref: Ref, members: map<MemberKey, Member>, next: nat, used: nat, open: bool,
                      key: MemberKey, member: Member)
    requires Packed(format, ref, members) && Within(members, next, used, open) && key == MemberKey(ref, next, used)
    requires member.length == format.encode(member.data) > 0 && format.InHand(used) && next <= |members|
    ensures key !in members && |members[key := member]| == |members| + 1
    ensures Packed(format, ref, members[key := member])
    ensures Within(members[key := member], next, used + member.length, true)
  {
    var more := members[key := member];
    assert key !in members;
    assert more.Keys == members.Keys + {key};
    forall a, b | a in more && b in more && a != b && a.part == b.part ensures Apart(more, a, b) {
      if a != key && b != key {
        assert Apart(members, a, b);
      } else {
        var other := if a == key then b else a;
        assert other.offset + members[other].length <= used;
      }
    }
  }

  lemma OneMoreLaid(format: Format, ref: Ref, members: map<MemberKey, Member>, next: nat, used: nat, table: nat,
                    open: bool, key: MemberKey, member: Member)
    requires Laid(format, ref, members, next, used, table, open) && Within(members, next, used, open)
    requires key == MemberKey(ref, next, used)
    requires member.length == format.encode(member.data) > 0 && format.InHand(used)
    ensures key !in members && |members[key := member]| == |members| + 1
    ensures Laid(format, ref, members[key := member], next, used + member.length, table + format.row(next, used), true)
    ensures Within(members[key := member], next, used + member.length, true)
  {
    hide PartBytes, Packed, Within;
    OneMorePacked(format, ref, members, next, used, open, key, member);
    var more := members[key := member];
    forall part: nat
      ensures PartBytes(format, more, part) ==
              PartBytes(format, members, part) + if part == next then member.length + format.row(part, used) else 0
    {
      OneMoreWeighs(format, members, key, member, part);
    }
  }

  lemma SealedLaid(format: Format, ref: Ref, members: map<MemberKey, Member>, next: nat, used: nat, table: nat)
    requires Laid(format, ref, members, next, used, table, true) && Within(members, next, used, true)
    requires used + table + PART_TRAILER <= MAXIMUM_PART_SIZE
    ensures Laid(format, ref, members, next + 1, 0, EMPTY_TABLE, false) && Within(members, next + 1, 0, false)
  {
    hide Packed;
    assert Weights(format, members, next + 1) == map[];
  }

  class PartWriter {
    const ref: Ref
    const format: Format
    /** The number of the part in hand, the encoded bytes it holds and its table's, and whether there is one. */
    var next: nat
    var used: nat
    var table: nat
    var open: bool
    var bytes: nat
    var members: map<MemberKey, Member>

    /** The part in hand has not outgrown what it fills to by more than a page. */
    predicate Bounded()
      reads this`used
    {
      format.partBytes <= PART_TARGET && used <= BODY_BOUND
    }

    /** The part in hand is sealed before another member: it has filled, or its table would. */
    predicate Full()
      reads this`next, this`used, this`table
    {
      used >= format.partBytes || table + format.widest(next, used) > MAXIMUM_TABLE_SIZE
    }

    /** The part in hand, its table and its trailer are within the bound of a part. */
    predicate Fits()
      reads this`used, this`table
    {
      used + table + PART_TRAILER <= MAXIMUM_PART_SIZE
    }

    /** What the next member is appended to. */
    function Body(): nat
      reads this`next, this`used, this`table, this`open
    {
      if open && !Full() then used else 0
    }

    /** Every member lies inside a part sealed within its bound, or inside the part in hand. */
    ghost predicate Valid()
      reads this
    {
      && format.Valid()
      && (if open then used > 0 else used == 0 && table == EMPTY_TABLE)
      && EMPTY_TABLE <= table <= MAXIMUM_TABLE_SIZE
      && Within(members, next, used, open)
      && Laid(format, ref, members, next, used, table, open)
      && bytes <= next * MAXIMUM_PART_SIZE + used
    }

    constructor (ref: Ref, format: Format)
      requires format.Valid()
      ensures Valid() && this.ref == ref && this.format == format
      ensures members == map[] && next == 0 && bytes == 0 && !open && used == 0
    {
      this.ref, this.format := ref, format;
      next, used, table, open, bytes, members := 0, 0, EMPTY_TABLE, false, 0, map[];
    }

    /** Every member is this checkpoint's, and lies as members do. */
    lemma Owns()
      requires Valid()
      ensures Packed(format, ref, members) && forall key :: key in members ==> key.ref == ref
    {
    }

    lemma BoundedFits()
      requires Valid() && Bounded()
      ensures Fits()
    {
    }

    /** Something lies in the part in hand. */
    lemma SomethingInHand() returns (key: MemberKey)
      requires Valid() && open
      ensures key in members && key.part == next
    {
      hide Format.Valid, Packed;
      assert Weights(format, members, next) != map[];
      key :| key in Weights(format, members, next);
    }

    /** Seals the part in hand, refusing one past the bound with its table and trailer. */
    method Seal() returns (ok: bool)
      requires Valid() && open
      modifies this`next, this`used, this`table, this`open
      ensures Valid() && (ok <==> old(Fits()))
      ensures ok ==> !open && next == old(next) + 1
      ensures !ok ==> next == old(next) && used == old(used) && table == old(table) && open
    {
      hide Format.Valid, Laid, Within;
      if !Fits() { return false; }
      SealedLaid(format, ref, members, next, used, table);
      next, used, table, open := next + 1, 0, EMPTY_TABLE, false;
      return true;
    }

    /** Takes one member into the part in hand, sealing a full one first. */
    method Submit(origin: Ref, data: seq<Byte>) returns (placed: Option<Location>)
      requires Valid()
      modifies this
      ensures Valid()
      ensures Grown(old(members), members) && |members| <= |old(members)| + 1
      ensures placed.None? <==> old(open && Full() && !Fits())
      ensures placed.Some? ==>
                && Placed(members, ref, origin, data, placed.value)
                && placed.value.Key() !in old(members)
                && members == old(members)[placed.value.Key() := Member(data, placed.value.length)]
                && bytes == old(bytes) + placed.value.length
                && placed.value.length == format.encode(data)
                && placed.value.offset == old(Body()) && placed.value.part == next
                && open && used == old(Body()) + format.encode(data)
                && table == old(if open && !Full() then table else EMPTY_TABLE) + format.row(next, old(Body()))
                && next == old(if open && Full() then next + 1 else next)
      // Only a member longer than a page, into a part already begun, can take a part past its bound.
      ensures old(Bounded()) ==> placed.Some?
      ensures old(Bounded()) && (|data| <= PAGE_SIZE_2MIB || (!old(open) && |data| <= MAXIMUM_STATE_SIZE)) ==> Bounded()
    {
      hide Laid, Within;
      if Bounded() { BoundedFits(); }
      var ready := MakeReady();
      if !ready { return None; }
      var at := Append(origin, data);
      return Some(at);
    }

    /** A part that has filled, or whose table would, is sealed before the next member. */
    method MakeReady() returns (ok: bool)
      requires Valid()
      modifies this`next, this`used, this`table, this`open
      ensures Valid() && (ok <==> !old(open && Full() && !Fits()))
      ensures ok ==>
                && (open <==> old(open && !Full())) && used == old(Body()) && (open ==> !Full())
                && table == old(if open && !Full() then table else EMPTY_TABLE)
                && next == old(if open && Full() then next + 1 else next)
    {
      hide Format.Valid, Laid, Within;
      ok := true;
      if open && Full() {
        ok := Seal();
      }
    }

    method Append(origin: Ref, data: seq<Byte>) returns (at: Location)
      requires Valid() && (open ==> !Full())
      modifies this`used, this`table, this`open, this`bytes, this`members
      ensures Valid() && Grown(old(members), members) && |members| == |old(members)| + 1
      ensures Placed(members, ref, origin, data, at) && at.Key() !in old(members)
      ensures members == old(members)[at.Key() := Member(data, at.length)] && bytes == old(bytes) + at.length
      ensures at == Location(ref, origin, next, old(used), format.encode(data)) && open
      ensures used == old(used) + at.length && table == old(table) + format.row(next, old(used))
    {
      hide Laid, Within;
      var length := format.encode(data);
      at := Location(ref, origin, next, used, length);
      OneMoreLaid(format, ref, members, next, used, table, open, at.Key(), Member(data, length));
      members := members[at.Key() := Member(data, length)];
      table, open := table + format.row(next, used), true;
      used, bytes := used + length, bytes + length;
    }

    /** Seals what is in hand: every member is then in a part the checkpoint counts. */
    method Finish() returns (ok: bool)
      requires Valid()
      modifies this`next, this`used, this`table, this`open
      ensures Valid()
      ensures ok <==> old(!open || Fits())
      ensures ok <==> PartsFit(format, members)
      ensures old(Bounded()) ==> ok
      ensures ok ==>
                && !open
                && (forall key :: key in members ==>
                      key.part < next && key.offset + members[key].length <= MAXIMUM_PART_SIZE)
    {
      if Bounded() { BoundedFits(); }
      ok := true;
      if open {
        ghost var last := SomethingInHand();
        ok := Seal();
      }
    }
  }

  /** A codec that compresses nothing, in a store whose parts fill to the target: the first row of a table is long and
      every other is short. */
  function PlainFormat(): Format {
    var first := MAXIMUM_TABLE_SIZE - EMPTY_TABLE - 32;
    var row := (part: nat, offset: nat) => if offset == 0 then first else 1;
    Format(PART_TARGET, data => |data| + ENVELOPE_HEADER, row, row, held => Encoded(0, ENVELOPE_HEADER),
           index => Encoded(0, ENVELOPE_HEADER), 0)
  }

  lemma PlainIsValid()
    ensures PlainFormat().Valid() && PlainFormat().partBytes == PART_TARGET
    ensures PlainFormat().Slack() == PAGE_SIZE_2MIB + ENVELOPE_HEADER + 1
    ensures forall data :: PlainFormat().encode(data) == |data| + ENVELOPE_HEADER
  {
  }

  lemma PlainRow(part: nat, offset: nat)
    ensures PlainFormat().row(part, offset) == PlainFormat().widest(part, offset)
    ensures PlainFormat().row(part, offset) == if offset == 0 then MAXIMUM_TABLE_SIZE - EMPTY_TABLE - 32 else 1
  {
  }

  /** Pages that leave one byte less in hand than a part fills to, and room for one more short row in its table. */
  method FillPages(ref: Ref, page: seq<Byte>) returns (writer: PartWriter)
    requires |page| == PAGE_SIZE_2MIB
    ensures fresh(writer) && writer.Valid() && writer.ref == ref && writer.format == PlainFormat() && writer.open
    ensures writer.used == PART_TARGET - 1 && writer.table == MAXIMUM_TABLE_SIZE - 1
  {
    hide PlainFormat, PartWriter.Valid, Placed, Grown, Format.Valid;
    PlainIsValid();
    writer := new PartWriter(ref, PlainFormat());
    for i := 0 to 31
      invariant fresh(writer) && writer.Valid() && writer.ref == ref && writer.format == PlainFormat()
      invariant (writer.open <==> i > 0) && writer.used == i * (PAGE_SIZE_2MIB + ENVELOPE_HEADER)
      invariant writer.table == if i == 0 then EMPTY_TABLE else MAXIMUM_TABLE_SIZE - 33 + i
    {
      PlainRow(writer.next, writer.used);
      var placed := writer.Submit(ref, page);
    }
    PlainRow(writer.next, writer.used);
    var last := writer.Submit(ref, page[..PART_TARGET - 1 - writer.used - ENVELOPE_HEADER]);
  }

  /** For every incompressible state whose envelope is past the slack there are pages behind which it takes its part
      past the bound: the part is refused, although no member of it is longer than one may be. */
  method MovedStateOverruns(ref: Ref, page: seq<Byte>, state: seq<Byte>) returns (finished: bool)
    requires |page| == PAGE_SIZE_2MIB && |state| <= MAXIMUM_STATE_SIZE
    ensures PlainFormat().Valid() && PlainFormat().encode(state) == |state| + ENVELOPE_HEADER
    ensures PlainFormat().encode(state) > PlainFormat().Slack() ==> !finished
  {
    hide PlainFormat, PartWriter.Valid, Placed, Grown, Format.Slack;
    PlainIsValid();
    var writer := FillPages(ref, page);
    PlainRow(writer.next, writer.used);
    var moved := writer.Submit(ref, state);
    finished := writer.Finish();
  }
}
