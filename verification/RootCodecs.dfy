/** The root of an index object as the message it is stored as.

Checkpoints are listed once and everything else names them by position. Volumes,
segments and checkpoints are listed in ascending order, so a publication repeated under
one reference writes the same message. A root that decodes is consistent with itself.

Which identities may name a VM is given.
*/
module RootCodecs {
  import opened Refs
  import opened Geometries
  import opened Roots
  import PageTables

  datatype CheckpointMessage = CheckpointMessage(ref: Ref, cost: CheckpointCost)

  datatype UseMessage = UseMessage(checkpoint: nat, bytes: nat)

  datatype EntryMessage = EntryMessage(number: nat, checkpoint: nat, offset: nat, length: nat, uses: seq<UseMessage>)

  datatype VolumeMessage = VolumeMessage(name: string, size: nat, geometry: Geometry, entries: seq<EntryMessage>,
                                         ephemeral: bool)

  datatype StateMessage = StateMessage(checkpoint: nat, part: nat, offset: nat, length: nat, origin: nat)

  datatype RootMessage = RootMessage(volumes: seq<VolumeMessage>, checkpoints: seq<CheckpointMessage>,
                                     origins: seq<Ref>, state: StateMessage, vcpus: nat, nested: bool)

  // ----------------------------------------------------------------------- decoding

  function RefsIn(checkpoints: seq<CheckpointMessage>): seq<Ref> {
    seq(|checkpoints|, i requires 0 <= i < |checkpoints| => checkpoints[i].ref)
  }

  function CostsIn(checkpoints: seq<CheckpointMessage>): map<Ref, CheckpointCost> {
    if checkpoints == [] then map[]
    else
      var last := checkpoints[|checkpoints| - 1];
      CostsIn(checkpoints[..|checkpoints| - 1])[last.ref := last.cost]
  }

  ghost predicate Unique(refs: seq<Ref>) { forall i, j :: 0 <= i < j < |refs| ==> refs[i] != refs[j] }

  function UsesIn(refs: seq<Ref>, uses: seq<UseMessage>): seq<CheckpointUse>
    requires forall i :: 0 <= i < |uses| ==> uses[i].checkpoint < |refs|
  {
    seq(|uses|, i requires 0 <= i < |uses| => CheckpointUse(refs[uses[i].checkpoint], uses[i].bytes))
  }

  /** What a segment reads is listed in strictly ascending order, each for some bytes. */
  ghost predicate UsesOk(refs: seq<Ref>, uses: seq<UseMessage>) {
    && (forall i :: 0 <= i < |uses| ==> uses[i].checkpoint < |refs| && uses[i].bytes > 0)
    && (forall i :: 0 < i < |uses| ==> uses[i - 1].checkpoint < uses[i].checkpoint)
  }

  ghost predicate EntryOk(refs: seq<Ref>, count: nat, entry: EntryMessage) {
    && entry.number < count && entry.checkpoint < |refs|
    && AddressOk(SegmentAddress(refs[entry.checkpoint], entry.offset, entry.length))
    && UsesOk(refs, entry.uses)
  }

  function EntryIn(refs: seq<Ref>, entry: EntryMessage): SegmentEntry
    requires entry.checkpoint < |refs| && forall i :: 0 <= i < |entry.uses| ==> entry.uses[i].checkpoint < |refs|
  {
    SegmentEntry(SegmentAddress(refs[entry.checkpoint], entry.offset, entry.length), UsesIn(refs, entry.uses))
  }

  ghost predicate VolumeOk(refs: seq<Ref>, volume: VolumeMessage) {
    && ValidName(volume.name) && volume.size % SECTOR_SIZE == 0 && volume.geometry.Supported()
    && (volume.ephemeral ==> volume.entries == [])
    && (forall i :: 0 <= i < |volume.entries| ==>
        EntryOk(refs, volume.geometry.SegmentCount(volume.size), volume.entries[i]))
    && (forall i, j :: 0 <= i < j < |volume.entries| ==> volume.entries[i].number != volume.entries[j].number)
  }

  predicate LocationOk(ids: Identities, costs: map<Ref, CheckpointCost>, at: Location) {
    && at.ref in costs && at.length > 0 && at.part < costs[at.ref].parts && at.offset + at.length <= MAXIMUM_PART_SIZE
    && ids(at.origin.vm) && at.origin.sequence != 0
  }

  function StateIn(refs: seq<Ref>, origins: seq<Ref>, state: StateMessage): Location
    requires state.checkpoint < |refs| && state.origin <= |origins|
  {
    var ref := refs[state.checkpoint];
    Location(ref, if state.origin == 0 then ref else origins[state.origin - 1], state.part, state.offset, state.length)
  }

  /** A root this build can use. */
  ghost predicate RootOk(ids: Identities, message: RootMessage) {
    var refs := RefsIn(message.checkpoints);
    && (forall i :: 0 <= i < |refs| ==> ids(refs[i].vm) && refs[i].sequence != 0) && Unique(refs)
    && (forall i :: 0 <= i < |message.origins| ==> ids(message.origins[i].vm) && message.origins[i].sequence != 0)
    && (forall i :: 0 <= i < |message.volumes| ==> VolumeOk(refs, message.volumes[i]))
    && (forall i, j :: 0 <= i < j < |message.volumes| ==> message.volumes[i].name != message.volumes[j].name)
    && message.vcpus <= MAXIMUM_VCPUS
    && (message.state.length != 0 ==>
          && message.state.checkpoint < |refs| && message.state.origin <= |message.origins|
          && LocationOk(ids, CostsIn(message.checkpoints), StateIn(refs, message.origins, message.state)))
  }

  /** The index a message says, volume by volume and entry by entry. */
  ghost predicate Says(ref: Ref, message: RootMessage, index: Index)
    requires message.state.length != 0 ==>
      message.state.checkpoint < |RefsIn(message.checkpoints)| && message.state.origin <= |message.origins|
  {
    var refs := RefsIn(message.checkpoints);
    && index.ref == ref && index.checkpoints == CostsIn(message.checkpoints)
    && index.vcpus == message.vcpus && index.nested == message.nested
    && index.state == (if message.state.length == 0 then None else Some(StateIn(refs, message.origins, message.state)))
    && Loaded(refs, message.volumes, index.volumes, index.segments)
  }

  lemma {:induction false} CostsAre(checkpoints: seq<CheckpointMessage>, ref: Ref)
    ensures ref in CostsIn(checkpoints) <==> ref in RefsIn(checkpoints)
  {
    if checkpoints != [] {
      var n := |checkpoints| - 1;
      CostsAre(checkpoints[..n], ref);
      assert RefsIn(checkpoints) == RefsIn(checkpoints[..n]) + [checkpoints[n].ref];
    }
  }

  /** The checkpoints a root lists: valid, each once. */
  method DecodeCheckpoints(ids: Identities, checkpoints: seq<CheckpointMessage>)
    returns (ok: bool, refs: seq<Ref>, costs: map<Ref, CheckpointCost>)
    ensures ok <==>
      && Unique(RefsIn(checkpoints))
      && forall i :: 0 <= i < |checkpoints| ==> ids(checkpoints[i].ref.vm) && checkpoints[i].ref.sequence != 0
    ensures ok ==> refs == RefsIn(checkpoints) && costs == CostsIn(checkpoints)
  {
    refs, costs := [], map[];
    for i := 0 to |checkpoints|
      invariant refs == RefsIn(checkpoints[..i]) && costs == CostsIn(checkpoints[..i]) && Unique(refs)
      invariant forall j :: 0 <= j < i ==> ids(checkpoints[j].ref.vm) && checkpoints[j].ref.sequence != 0
    {
      var entry := checkpoints[i];
      assert checkpoints[..i + 1] == checkpoints[..i] + [entry] && checkpoints[..i + 1][..i] == checkpoints[..i];
      assert RefsIn(checkpoints[..i + 1]) == RefsIn(checkpoints[..i]) + [entry.ref];
      if !ids(entry.ref.vm) || entry.ref.sequence == 0 {
        return false, [], map[];
      }
      CostsAre(checkpoints[..i], entry.ref);
      if entry.ref in costs {
        var j :| 0 <= j < i && RefsIn(checkpoints[..i])[j] == entry.ref;
        assert RefsIn(checkpoints)[j] == RefsIn(checkpoints)[i];
        return false, [], map[];
      }
      refs, costs := refs + [entry.ref], costs[entry.ref := entry.cost];
    }
    assert checkpoints[..|checkpoints|] == checkpoints;
    ok := true;
  }

  method DecodeUses(refs: seq<Ref>, messages: seq<UseMessage>) returns (ok: bool, uses: seq<CheckpointUse>)
    ensures ok <==> UsesOk(refs, messages)
    ensures ok ==> uses == UsesIn(refs, messages)
  {
    uses := [];
    var previous: int := -1;
    for i := 0 to |messages|
      invariant UsesOk(refs, messages[..i]) && uses == UsesIn(refs, messages[..i])
      invariant previous == if i == 0 then -1 else messages[i - 1].checkpoint
    {
      var use := messages[i];
      if use.checkpoint >= |refs| || use.checkpoint <= previous || use.bytes == 0 {
        return false, [];
      }
      previous := use.checkpoint;
      uses := uses + [CheckpointUse(refs[use.checkpoint], use.bytes)];
    }
    assert messages[..|messages|] == messages;
    ok := true;
  }

  /** The entries of one volume so far. */
  ghost predicate Entered(refs: seq<Ref>, count: nat, entries: seq<EntryMessage>, segments: map<nat, SegmentEntry>) {
    && (forall j :: 0 <= j < |entries| ==>
          && EntryOk(refs, count, entries[j])
          && entries[j].number in segments && segments[entries[j].number] == EntryIn(refs, entries[j]))
    && (forall number :: number in segments ==> exists j :: 0 <= j < |entries| && entries[j].number == number)
  }

  ghost predicate NumberedOnce(entries: seq<EntryMessage>) {
    forall i, j :: 0 <= i < j < |entries| ==> entries[i].number != entries[j].number
  }

  method DecodeEntries(refs: seq<Ref>, count: nat, entries: seq<EntryMessage>)
    returns (ok: bool, segments: map<nat, SegmentEntry>)
    ensures ok <==> NumberedOnce(entries) && forall i :: 0 <= i < |entries| ==> EntryOk(refs, count, entries[i])
    ensures ok ==> Entered(refs, count, entries, segments)
  {
    segments := map[];
    for i := 0 to |entries|
      invariant Entered(refs, count, entries[..i], segments) && NumberedOnce(entries[..i])
    {
      var entry := entries[i];
      if entry.number >= count {
        return false, map[];
      }
      if entry.number in segments {
        var j :| 0 <= j < i && entries[..i][j].number == entry.number;
        assert entries[j].number == entries[i].number;
        return false, map[];
      }
      if entry.checkpoint >= |refs| {
        return false, map[];
      }
      var at := SegmentAddress(refs[entry.checkpoint], entry.offset, entry.length);
      if !AddressOk(at) {
        return false, map[];
      }
      var fine, uses := DecodeUses(refs, entry.uses);
      if !fine {
        return false, map[];
      }
      EnterMore(refs, count, entries[..i], entry, segments);
      assert entries[..i + 1] == entries[..i] + [entry];
      segments := segments[entry.number := SegmentEntry(at, uses)];
    }
    assert entries[..|entries|] == entries;
    ok := true;
  }

  lemma EnterMore(refs: seq<Ref>, count: nat, entries: seq<EntryMessage>, entry: EntryMessage,
                  segments: map<nat, SegmentEntry>)
    requires Entered(refs, count, entries, segments) && NumberedOnce(entries) && EntryOk(refs, count, entry)
    requires entry.number !in segments
    ensures Entered(refs, count, entries + [entry], segments[entry.number := EntryIn(refs, entry)])
    ensures NumberedOnce(entries + [entry])
  {
    hide EntryIn;
    var more, after := entries + [entry], segments[entry.number := EntryIn(refs, entry)];
    forall number | number in after ensures exists j :: 0 <= j < |more| && more[j].number == number {
      if number == entry.number {
        assert more[|entries|].number == number;
      } else {
        var j :| 0 <= j < |entries| && entries[j].number == number;
        assert more[j].number == number;
      }
    }
  }

  /** The volumes read so far. */
  ghost predicate Loaded(refs: seq<Ref>, messages: seq<VolumeMessage>, volumes: map<string, Volume>,
                         segments: map<SegmentKey, SegmentEntry>)
  {
    && (forall i :: 0 <= i < |messages| ==>
        VolumeOk(refs, messages[i]) && HasVolume(refs, messages[i], volumes, segments))
    && (forall name :: name in volumes ==> exists i :: 0 <= i < |messages| && messages[i].name == name)
    && (forall key :: key in segments ==> exists i :: 0 <= i < |messages| && InVolume(messages[i], key))
  }

  ghost predicate InVolume(volume: VolumeMessage, key: SegmentKey) {
    key.volume == volume.name && exists j :: 0 <= j < |volume.entries| && volume.entries[j].number == key.number
  }

  ghost predicate HasVolume(refs: seq<Ref>, volume: VolumeMessage, volumes: map<string, Volume>,
                            segments: map<SegmentKey, SegmentEntry>)
    requires VolumeOk(refs, volume)
  {
    && volume.name in volumes && volumes[volume.name] == Volume(volume.size, volume.geometry, volume.ephemeral)
    && (forall j :: 0 <= j < |volume.entries| ==> HasEntry(refs, volume, j, segments))
  }

  ghost predicate HasEntry(refs: seq<Ref>, volume: VolumeMessage, j: nat, segments: map<SegmentKey, SegmentEntry>)
    requires VolumeOk(refs, volume) && j < |volume.entries|
  {
    var key := SegmentKey(volume.name, volume.entries[j].number);
    assert EntryOk(refs, volume.geometry.SegmentCount(volume.size), volume.entries[j]);
    key in segments && segments[key] == EntryIn(refs, volume.entries[j])
  }

  /** One volume of a root, added to those before it. */
  method DecodeVolume(refs: seq<Ref>, message: VolumeMessage, volumes0: map<string, Volume>,
                      segments0: map<SegmentKey, SegmentEntry>, ghost before: seq<VolumeMessage>)
    returns (ok: bool, volumes: map<string, Volume>, segments: map<SegmentKey, SegmentEntry>)
    requires Loaded(refs, before, volumes0, segments0)
    ensures ok <==> VolumeOk(refs, message) && message.name !in volumes0
    ensures ok ==> Loaded(refs, before + [message], volumes, segments)
  {
    hide Loaded, Entered, EntryOk, ValidName, Geometry.Supported, Geometry.SegmentCount;
    volumes, segments := map[], map[];
    if !ValidName(message.name) || message.name in volumes0 || message.size % SECTOR_SIZE != 0 {
      return false, map[], map[];
    }
    if !message.geometry.Supported() || (message.ephemeral && message.entries != []) {
      return false, map[], map[];
    }
    var held;
    ok, held := DecodeEntries(refs, message.geometry.SegmentCount(message.size), message.entries);
    if !ok {
      return;
    }
    volumes := volumes0[message.name := Volume(message.size, message.geometry, message.ephemeral)];
    segments := segments0 + KeyedBy(message.name, held);
    LoadMore(refs, before, message, volumes0, segments0, held);
  }

  function KeyedBy(name: string, held: map<nat, SegmentEntry>): map<SegmentKey, SegmentEntry> {
    map number | number in held :: SegmentKey(name, number) := held[number]
  }

  lemma LoadMore(refs: seq<Ref>, before: seq<VolumeMessage>, message: VolumeMessage, volumes: map<string, Volume>,
                 segments: map<SegmentKey, SegmentEntry>, held: map<nat, SegmentEntry>)
    requires Loaded(refs, before, volumes, segments) && VolumeOk(refs, message) && message.name !in volumes
    requires Entered(refs, message.geometry.SegmentCount(message.size), message.entries, held)
    ensures Loaded(refs, before + [message],
                   volumes[message.name := Volume(message.size, message.geometry, message.ephemeral)],
                   segments + KeyedBy(message.name, held))
  {
    hide VolumeOk, EntryIn, EntryOk;
    var more := before + [message];
    var after := volumes[message.name := Volume(message.size, message.geometry, message.ephemeral)];
    var all := segments + KeyedBy(message.name, held);
    forall i | 0 <= i < |more| ensures VolumeOk(refs, more[i]) && HasVolume(refs, more[i], after, all) {
      if i < |before| {
        assert HasVolume(refs, before[i], volumes, segments);
        assert before[i].name != message.name;
        forall j | 0 <= j < |before[i].entries| ensures HasEntry(refs, before[i], j, all) {
          assert HasEntry(refs, before[i], j, segments);
        }
      } else {
        forall j | 0 <= j < |message.entries| ensures HasEntry(refs, message, j, all) {
          assert message.entries[j].number in held;
        }
      }
    }
    forall name | name in after ensures exists i :: 0 <= i < |more| && more[i].name == name {
      if name == message.name {
        assert more[|before|].name == name;
      } else {
        var i :| 0 <= i < |before| && before[i].name == name;
        assert more[i].name == name;
      }
    }
    forall key | key in all ensures exists i :: 0 <= i < |more| && InVolume(more[i], key) {
      if key in segments && !(key.volume == message.name && key.number in held) {
        var i :| 0 <= i < |before| && InVolume(before[i], key);
        assert InVolume(more[i], key);
      } else {
        assert key.volume == message.name && key.number in held;
        var j :| 0 <= j < |message.entries| && message.entries[j].number == key.number;
        assert InVolume(more[|before|], key);
      }
    }
  }

  /** Parses a root. It is refused exactly when it is not one this build can use. */
  method Decode(ids: Identities, ref: Ref, message: RootMessage) returns (index: Option<Index>)
    ensures index.Some? <==> RootOk(ids, message)
    ensures index.Some? ==>
      && (message.state.length != 0 ==>
            message.state.checkpoint < |RefsIn(message.checkpoints)| && message.state.origin <= |message.origins|)
      && Says(ref, message, index.value)
  {
    var ok, refs, costs := DecodeCheckpoints(ids, message.checkpoints);
    if !ok {
      BadCheckpoint(ids, message);
      return None;
    }
    var originsOk :=
      forall i :: 0 <= i < |message.origins| ==> ids(message.origins[i].vm) && message.origins[i].sequence != 0;
    if !originsOk {
      return None;
    }
    var volumes, segments;
    ok, volumes, segments := DecodeVolumes(refs, message.volumes);
    if !ok || message.vcpus > MAXIMUM_VCPUS {
      return None;
    }
    var state: Option<Location> := None;
    if message.state.length != 0 {
      if message.state.checkpoint >= |refs| || message.state.origin > |message.origins| {
        return None;
      }
      var at := StateIn(refs, message.origins, message.state);
      if !LocationOk(ids, costs, at) {
        return None;
      }
      state := Some(at);
    }
    assert forall i :: 0 <= i < |refs| ==> refs[i] == message.checkpoints[i].ref;
    index := Some(Index(ref, volumes, segments, costs, state, message.vcpus, message.nested));
  }

  lemma BadCheckpoint(ids: Identities, message: RootMessage)
    requires !(Unique(RefsIn(message.checkpoints)) &&
               forall i :: 0 <= i < |message.checkpoints| ==>
                 ids(message.checkpoints[i].ref.vm) && message.checkpoints[i].ref.sequence != 0)
    ensures !RootOk(ids, message)
  {
    var refs := RefsIn(message.checkpoints);
    assert forall i :: 0 <= i < |message.checkpoints| ==> refs[i] == message.checkpoints[i].ref;
  }

  method DecodeVolumes(refs: seq<Ref>, messages: seq<VolumeMessage>)
    returns (ok: bool, volumes: map<string, Volume>, segments: map<SegmentKey, SegmentEntry>)
    ensures ok <==>
      && (forall i :: 0 <= i < |messages| ==> VolumeOk(refs, messages[i]))
      && (forall i, j :: 0 <= i < j < |messages| ==> messages[i].name != messages[j].name)
    ensures ok ==> Loaded(refs, messages, volumes, segments)
  {
    hide Loaded, VolumeOk;
    volumes, segments := map[], map[];
    NoneLoaded(refs);
    assert messages[..0] == [];
    for i := 0 to |messages|
      invariant Loaded(refs, messages[..i], volumes, segments)
      invariant forall j, k :: 0 <= j < k < i ==> messages[j].name != messages[k].name
    {
      var fine, more, held := DecodeVolume(refs, messages[i], volumes, segments, messages[..i]);
      if !fine {
        if messages[i].name in volumes {
          ghost var j := NamedBy(refs, messages[..i], volumes, segments, messages[i].name);
          assert messages[j].name == messages[i].name;
        }
        return false, map[], map[];
      }
      assert messages[..i + 1] == messages[..i] + [messages[i]];
      forall j | 0 <= j < i ensures messages[j].name != messages[i].name {
        NamedIs(refs, messages[..i], j, volumes, segments);
      }
      volumes, segments := more, held;
    }
    assert messages[..|messages|] == messages;
    AllLoaded(refs, messages, volumes, segments);
    ok := true;
  }

  lemma NoneLoaded(refs: seq<Ref>)
    ensures Loaded(refs, [], map[], map[])
  {
  }

  lemma AllLoaded(refs: seq<Ref>, messages: seq<VolumeMessage>, volumes: map<string, Volume>,
                  segments: map<SegmentKey, SegmentEntry>)
    requires Loaded(refs, messages, volumes, segments)
    ensures forall i :: 0 <= i < |messages| ==> VolumeOk(refs, messages[i])
  {
  }

  lemma NamedBy(refs: seq<Ref>, messages: seq<VolumeMessage>, volumes: map<string, Volume>,
                segments: map<SegmentKey, SegmentEntry>, name: string)
    returns (j: nat)
    requires Loaded(refs, messages, volumes, segments) && name in volumes
    ensures j < |messages| && messages[j].name == name
  {
    j :| 0 <= j < |messages| && messages[j].name == name;
  }

  lemma NamedIs(refs: seq<Ref>, messages: seq<VolumeMessage>, j: nat, volumes: map<string, Volume>,
                segments: map<SegmentKey, SegmentEntry>)
    requires Loaded(refs, messages, volumes, segments) && j < |messages|
    ensures messages[j].name in volumes
  {
    assert HasVolume(refs, messages[j], volumes, segments);
  }

  // ----------------------------------------------------------------------- encoding

  function Position(refs: seq<Ref>, ref: Ref): nat { PageTables.IndexOf(refs, ref) }

  function CheckpointsOf(index: Index): seq<CheckpointMessage> {
    var refs := SortedRefs(Named(index));
    seq(|refs|, i requires 0 <= i < |refs| => CheckpointMessage(refs[i], index.checkpoints[refs[i]]))
  }

  /** Uses are kept in ascending order of checkpoint, which is the order of the positions. */
  function UsesOf(refs: seq<Ref>, uses: seq<CheckpointUse>): seq<UseMessage> {
    seq(|uses|, i requires 0 <= i < |uses| => UseMessage(Position(refs, uses[i].ref), uses[i].bytes))
  }

  function EntryOf(refs: seq<Ref>, number: nat, entry: SegmentEntry): EntryMessage {
    EntryMessage(number, Position(refs, entry.at.ref), entry.at.offset, entry.at.length, UsesOf(refs, entry.uses))
  }

  /** The entries of a volume's segments below a number, in ascending order. */
  function EntriesBelow(index: Index, refs: seq<Ref>, name: string, n: nat): seq<EntryMessage> {
    if n == 0 then []
    else
      var key := SegmentKey(name, n - 1);
      EntriesBelow(index, refs, name, n - 1) +
      if key in index.segments then [EntryOf(refs, n - 1, index.segments[key])] else []
  }

  function VolumeOf(index: Index, refs: seq<Ref>, name: string): VolumeMessage
    requires name in index.volumes && index.volumes[name].geometry.Supported()
  {
    var volume := index.volumes[name];
    VolumeMessage(name, volume.size, volume.geometry,
                  EntriesBelow(index, refs, name, volume.geometry.SegmentCount(volume.size)), volume.ephemeral)
  }

  /** The volumes' names, in ascending order. */
  function NamesOf(index: Index): seq<Ref> { SortedRefs(set name | name in index.volumes :: Ref(name, 0)) }

  function OriginsOf(index: Index): seq<Ref> {
    if index.state.None? || index.state.value.origin == index.state.value.ref then [] else [index.state.value.origin]
  }

  function StateOf(index: Index, refs: seq<Ref>): StateMessage {
    if index.state.None? then StateMessage(0, 0, 0, 0, 0)
    else
      var at := index.state.value;
      StateMessage(Position(refs, at.ref), at.part, at.offset, at.length, if at.origin == at.ref then 0 else 1)
  }

  function Encode(index: Index): RootMessage
    requires forall name :: name in index.volumes ==> index.volumes[name].geometry.Supported()
  {
    var refs, names := SortedRefs(Named(index)), NamesOf(index);
    RootMessage(seq(|names|, i requires 0 <= i < |names| => NameIn(index, i); VolumeOf(index, refs, names[i].vm)),
                CheckpointsOf(index), OriginsOf(index), StateOf(index, refs), index.vcpus, index.nested)
  }

  lemma NameIn(index: Index, i: nat)
    requires i < |NamesOf(index)|
    ensures NamesOf(index)[i].vm in index.volumes && NamesOf(index)[i] == Ref(NamesOf(index)[i].vm, 0)
  {
    hide SortedRefs;
    assert NamesOf(index)[i] in NamesOf(index);
  }

  // ------------------------------------------------------------------- round trip

  ghost predicate UsesStorable(checkpoints: map<Ref, CheckpointCost>, uses: seq<CheckpointUse>) {
    && (forall i :: 0 <= i < |uses| ==> uses[i].ref in checkpoints && uses[i].bytes > 0)
    && (forall i, j :: 0 <= i < j < |uses| ==> RefLess(uses[i].ref, uses[j].ref))
  }

  ghost predicate EntryStorable(index: Index, key: SegmentKey)
    requires key in index.segments
  {
    && key.volume in index.volumes && !index.volumes[key.volume].ephemeral &&
      index.volumes[key.volume].geometry.Supported()
    && key.number < index.volumes[key.volume].geometry.SegmentCount(index.volumes[key.volume].size)
    && index.segments[key].at.ref in index.checkpoints && AddressOk(index.segments[key].at)
    && UsesStorable(index.checkpoints, index.segments[key].uses)
  }

  /** A root a publication may write. */
  ghost predicate Storable(ids: Identities, index: Index) {
    && (forall ref :: ref in index.checkpoints ==> ids(ref.vm) && ref.sequence != 0)
    && (forall name :: name in index.volumes ==>
          ValidName(name) && index.volumes[name].size % SECTOR_SIZE == 0 && index.volumes[name].geometry.Supported())
    && (forall key :: key in index.segments ==> EntryStorable(index, key))
    && index.vcpus <= MAXIMUM_VCPUS
    && (index.state.Some? ==> LocationOk(ids, index.checkpoints, index.state.value))
  }

  lemma AscendingIsUnique(refs: seq<Ref>)
    requires Ascending(refs)
    ensures Unique(refs)
  {
    forall i, j | 0 <= i < j < |refs| ensures refs[i] != refs[j] { RefLessTotal(refs[i], refs[j]); }
  }

  /** Positions in an ascending list keep the order. */
  lemma PositionsRise(refs: seq<Ref>, a: Ref, b: Ref)
    requires Ascending(refs) && a in refs && b in refs && RefLess(a, b)
    ensures Position(refs, a) < Position(refs, b) < |refs|
  {
    var i, j := Position(refs, a), Position(refs, b);
    RefLessTotal(a, b);
  }

  lemma CheckpointsRoundTrip(index: Index)
    ensures RefsIn(CheckpointsOf(index)) == SortedRefs(Named(index))
    ensures CostsIn(CheckpointsOf(index)) == index.checkpoints
  {
    hide SortedRefs;
    var refs, messages := SortedRefs(Named(index)), CheckpointsOf(index);
    assert RefsIn(messages) == refs;
    CostsAsListed(index, messages, |messages|);
    assert messages[..|messages|] == messages;
    forall ref ensures ref in CostsIn(messages) <==> ref in index.checkpoints { CostsAre(messages, ref); }
  }

  lemma {:induction false} CostsAsListed(index: Index, messages: seq<CheckpointMessage>, n: nat)
    requires n <= |messages| && forall i :: 0 <= i < |messages| ==>
      messages[i].ref in index.checkpoints && messages[i].cost == index.checkpoints[messages[i].ref]
    ensures forall ref :: ref in CostsIn(messages[..n]) ==>
      ref in index.checkpoints && CostsIn(messages[..n])[ref] == index.checkpoints[ref]
    decreases n
  {
    if n > 0 {
      CostsAsListed(index, messages, n - 1);
      assert messages[..n][..n - 1] == messages[..n - 1];
    }
  }

  lemma UsesRoundTrip(index: Index, refs: seq<Ref>, uses: seq<CheckpointUse>)
    requires refs == SortedRefs(Named(index)) && UsesStorable(index.checkpoints, uses)
    ensures UsesOk(refs, UsesOf(refs, uses)) && UsesIn(refs, UsesOf(refs, uses)) == uses
  {
    hide SortedRefs, Position;
    forall i | 0 <= i < |uses|
      ensures Position(refs, uses[i].ref) < |refs| && refs[Position(refs, uses[i].ref)] == uses[i].ref
    {
      PositionIs(refs, uses[i].ref);
    }
    forall i | 0 < i < |uses| ensures Position(refs, uses[i - 1].ref) < Position(refs, uses[i].ref) {
      PositionsRise(refs, uses[i - 1].ref, uses[i].ref);
    }
  }

  lemma PositionIs(refs: seq<Ref>, ref: Ref)
    requires ref in refs
    ensures Position(refs, ref) < |refs| && refs[Position(refs, ref)] == ref
  {
  }

  lemma EntryRoundTrip(index: Index, refs: seq<Ref>, key: SegmentKey)
    requires key in index.segments && EntryStorable(index, key) && refs == SortedRefs(Named(index))
    ensures var entry, volume := EntryOf(refs, key.number, index.segments[key]), index.volumes[key.volume];
      EntryOk(refs, volume.geometry.SegmentCount(volume.size), entry) && EntryIn(refs, entry) == index.segments[key]
  {
    hide SortedRefs, Position, Geometry.SegmentCount, UsesStorable;
    PositionIs(refs, index.segments[key].at.ref);
    UsesRoundTrip(index, refs, index.segments[key].uses);
  }

  ghost predicate IsEntry(index: Index, refs: seq<Ref>, name: string, entry: EntryMessage) {
    SegmentKey(name, entry.number) in index.segments &&
      entry == EntryOf(refs, entry.number, index.segments[SegmentKey(name, entry.number)])
  }

  ghost predicate AreItsEntries(index: Index, refs: seq<Ref>, name: string, n: nat, entries: seq<EntryMessage>) {
    && (forall i :: 0 <= i < |entries| ==> entries[i].number < n && IsEntry(index, refs, name, entries[i]))
    && (forall i, j :: 0 <= i < j < |entries| ==> entries[i].number < entries[j].number)
  }

  ghost predicate AreTheEntries(index: Index, refs: seq<Ref>, name: string, n: nat, entries: seq<EntryMessage>) {
    && AreItsEntries(index, refs, name, n, entries)
    && (forall number: nat :: SegmentKey(name, number) in index.segments && number < n ==>
          exists i :: 0 <= i < |entries| && entries[i].number == number)
  }

  lemma {:induction false} EntriesInOrder(index: Index, refs: seq<Ref>, name: string, n: nat)
    ensures AreItsEntries(index, refs, name, n, EntriesBelow(index, refs, name, n))
    decreases n
  {
    hide IsEntry, EntryOf;
    if n > 0 {
      EntriesInOrder(index, refs, name, n - 1);
      var before, entries := EntriesBelow(index, refs, name, n - 1), EntriesBelow(index, refs, name, n);
      assert forall i :: 0 <= i < |before| ==> entries[i] == before[i];
      var key := SegmentKey(name, n - 1);
      if key in index.segments {
        EntryIsEntry(index, refs, name, n - 1);
        assert entries == before + [EntryOf(refs, n - 1, index.segments[key])];
      } else {
        assert entries == before;
      }
    }
  }

  lemma {:induction false} EntryAmong(index: Index, refs: seq<Ref>, name: string, n: nat, number: nat) returns (i: nat)
    requires SegmentKey(name, number) in index.segments && number < n
    ensures i < |EntriesBelow(index, refs, name, n)| && EntriesBelow(index, refs, name, n)[i].number == number
    decreases n
  {
    hide EntryOf;
    if number == n - 1 {
      EntryIsEntry(index, refs, name, number);
      i := |EntriesBelow(index, refs, name, n - 1)|;
    } else {
      i := EntryAmong(index, refs, name, n - 1, number);
    }
  }

  lemma EntriesAre(index: Index, refs: seq<Ref>, name: string, n: nat)
    ensures AreTheEntries(index, refs, name, n, EntriesBelow(index, refs, name, n))
  {
    hide IsEntry, EntriesBelow;
    EntriesInOrder(index, refs, name, n);
    var entries := EntriesBelow(index, refs, name, n);
    forall number: nat | SegmentKey(name, number) in index.segments && number < n
      ensures exists i :: 0 <= i < |entries| && entries[i].number == number
    {
      var i := EntryAmong(index, refs, name, n, number);
    }
  }

  lemma EntryIsEntry(index: Index, refs: seq<Ref>, name: string, number: nat)
    requires SegmentKey(name, number) in index.segments
    ensures IsEntry(index, refs, name, EntryOf(refs, number, index.segments[SegmentKey(name, number)]))
    ensures EntryOf(refs, number, index.segments[SegmentKey(name, number)]).number == number
  {
  }

  lemma VolumeRoundTrip(ids: Identities, index: Index, refs: seq<Ref>, name: string)
    requires Storable(ids, index) && name in index.volumes && refs == SortedRefs(Named(index))
    ensures VolumeOk(refs, VolumeOf(index, refs, name))
    ensures HasVolume(refs, VolumeOf(index, refs, name), index.volumes, index.segments)
    ensures forall key :: key in index.segments && key.volume == name ==> InVolume(VolumeOf(index, refs, name), key)
  {
    hide SortedRefs, EntriesBelow, ValidName, EntryIn, EntryOf, LocationOk, AddressOk;
    var message, volume := VolumeOf(index, refs, name), index.volumes[name];
    var count := volume.geometry.SegmentCount(volume.size);
    EntriesAre(index, refs, name, count);
    forall i | 0 <= i < |message.entries|
      ensures var key := SegmentKey(name, message.entries[i].number);
        && key in index.segments && EntryOk(refs, count, message.entries[i]) && EntryStorable(index, key)
        && index.segments[key] == EntryIn(refs, message.entries[i])
    {
      assert IsEntry(index, refs, name, message.entries[i]);
      EntryRoundTrip(index, refs, SegmentKey(name, message.entries[i].number));
    }
    if message.entries != [] {
      assert EntryStorable(index, SegmentKey(name, message.entries[0].number));
    }
    assert VolumeOk(refs, message);
    forall j | 0 <= j < |message.entries| ensures HasEntry(refs, message, j, index.segments) {
    }
    forall key | key in index.segments && key.volume == name ensures InVolume(message, key) {
      assert EntryStorable(index, key);
      assert key == SegmentKey(name, key.number);
    }
  }

  lemma NamesAre(index: Index, name: string)
    requires name in index.volumes
    ensures exists i :: 0 <= i < |NamesOf(index)| && NamesOf(index)[i].vm == name
  {
    hide SortedRefs;
    assert Ref(name, 0) in NamesOf(index);
    var i :| 0 <= i < |NamesOf(index)| && NamesOf(index)[i] == Ref(name, 0);
  }

  lemma NamesDiffer(index: Index, i: nat, j: nat)
    requires i < j < |NamesOf(index)|
    ensures NamesOf(index)[i].vm != NamesOf(index)[j].vm
  {
    hide SortedRefs;
    NameIn(index, i);
    NameIn(index, j);
    assert RefLess(NamesOf(index)[i], NamesOf(index)[j]);
    RefLessTotal(NamesOf(index)[i], NamesOf(index)[j]);
  }

  lemma VolumesRoundTrip(ids: Identities, index: Index)
    requires Storable(ids, index)
    ensures var refs, volumes := SortedRefs(Named(index)), Encode(index).volumes;
      && Loaded(refs, volumes, index.volumes, index.segments)
      && (forall i :: 0 <= i < |volumes| ==> VolumeOk(refs, volumes[i]))
      && (forall i, j :: 0 <= i < j < |volumes| ==> volumes[i].name != volumes[j].name)
  {
    hide SortedRefs, NamesOf, EntriesBelow, VolumeOk, HasVolume, EntryStorable, InVolume, LocationOk, ValidName;
    var refs, volumes, names := SortedRefs(Named(index)), Encode(index).volumes, NamesOf(index);
    forall i | 0 <= i < |volumes|
      ensures VolumeOk(refs, volumes[i]) && HasVolume(refs, volumes[i], index.volumes, index.segments)
    {
      NameIn(index, i);
      VolumeRoundTrip(ids, index, refs, names[i].vm);
    }
    forall i, j | 0 <= i < j < |volumes| ensures volumes[i].name != volumes[j].name { NamesDiffer(index, i, j); }
    forall name | name in index.volumes ensures exists i :: 0 <= i < |volumes| && volumes[i].name == name {
      var i := VolumeIsThere(index, name);
    }
    forall key | key in index.segments ensures exists i :: 0 <= i < |volumes| && InVolume(volumes[i], key) {
      SegmentIsThere(ids, index, key);
    }
  }

  lemma VolumeIsThere(index: Index, name: string) returns (i: nat)
    requires (forall name :: name in index.volumes ==> index.volumes[name].geometry.Supported())
    requires name in index.volumes
    ensures i < |Encode(index).volumes|
    ensures Encode(index).volumes[i] == VolumeOf(index, SortedRefs(Named(index)), name)
    ensures Encode(index).volumes[i].name == name
  {
    hide SortedRefs, NamesOf, EntriesBelow;
    NamesAre(index, name);
    i :| 0 <= i < |NamesOf(index)| && NamesOf(index)[i].vm == name;
    forall j | 0 <= j < |NamesOf(index)| ensures NamesOf(index)[j].vm in index.volumes { NameIn(index, j); }
  }

  lemma SegmentIsThere(ids: Identities, index: Index, key: SegmentKey)
    requires Storable(ids, index) && key in index.segments
    ensures exists i :: 0 <= i < |Encode(index).volumes| && InVolume(Encode(index).volumes[i], key)
  {
    hide SortedRefs, NamesOf, VolumeOf, VolumeOk, HasVolume, EntryStorable, InVolume, Encode;
    InItsVolume(index, key);
    var i := VolumeIsThere(index, key.volume);
    VolumeRoundTrip(ids, index, SortedRefs(Named(index)), key.volume);
    assert InVolume(Encode(index).volumes[i], key);
  }

  lemma InItsVolume(index: Index, key: SegmentKey)
    requires key in index.segments && EntryStorable(index, key)
    ensures key.volume in index.volumes
  {
  }

  /** Every root a publication may write decodes, to that root. */
  lemma RootRoundTrip(ids: Identities, index: Index)
    requires Storable(ids, index)
    ensures RootOk(ids, Encode(index))
    ensures Says(index.ref, Encode(index), index)
  {
    hide SortedRefs, NamesOf, VolumeOk, Loaded, EntriesBelow, EntryStorable, ValidName, CostsIn, RefsIn;
    var refs, message := SortedRefs(Named(index)), Encode(index);
    CheckpointsRoundTrip(index);
    VolumesRoundTrip(ids, index);
    AscendingIsUnique(refs);
    forall i | 0 <= i < |refs| ensures ids(refs[i].vm) && refs[i].sequence != 0 { assert refs[i] in refs; }
    if index.state.Some? {
      PositionIs(refs, index.state.value.ref);
    }
  }

  /** A message says one index. */
  lemma SaysOne(ids: Identities, ref: Ref, message: RootMessage, a: Index, b: Index)
    requires RootOk(ids, message) && Says(ref, message, a) && Says(ref, message, b)
    ensures a == b
  {
    hide VolumeOk, EntryOk, EntryIn, CostsIn, RefsIn, LocationOk;
    OneLoad(RefsIn(message.checkpoints), message.volumes, a.volumes, a.segments, b.volumes, b.segments);
    OneLoad(RefsIn(message.checkpoints), message.volumes, b.volumes, b.segments, a.volumes, a.segments);
    assert a.volumes == b.volumes && a.segments == b.segments;
  }

  lemma OneLoad(refs: seq<Ref>, messages: seq<VolumeMessage>, volumes: map<string, Volume>,
                segments: map<SegmentKey, SegmentEntry>,
                volumes': map<string, Volume>, segments': map<SegmentKey, SegmentEntry>)
    requires Loaded(refs, messages, volumes, segments) && Loaded(refs, messages, volumes', segments')
    ensures forall name :: name in volumes ==> name in volumes' && volumes'[name] == volumes[name]
    ensures forall key :: key in segments ==> key in segments' && segments'[key] == segments[key]
  {
    hide VolumeOk, EntryOk, EntryIn;
    forall name | name in volumes ensures name in volumes' && volumes'[name] == volumes[name] {
      var i :| 0 <= i < |messages| && messages[i].name == name;
      assert HasVolume(refs, messages[i], volumes, segments) && HasVolume(refs, messages[i], volumes', segments');
    }
    forall key | key in segments ensures key in segments' && segments'[key] == segments[key] {
      var i :| 0 <= i < |messages| && InVolume(messages[i], key);
      var j :| 0 <= j < |messages[i].entries| && messages[i].entries[j].number == key.number;
      assert HasVolume(refs, messages[i], volumes, segments) && HasVolume(refs, messages[i], volumes', segments');
      assert HasEntry(refs, messages[i], j, segments) && HasEntry(refs, messages[i], j, segments');
    }
  }

  /** A root that is consistent with itself can be stored, where its names, its addresses and its counts are ones a
      publication makes. */
  lemma WellFormedIsStorable(ids: Identities, store: Store, index: Index)
    requires WellFormed(store, index) && Legal(ids, index)
    ensures Storable(ids, index)
  {
    hide AddressOk, ValidName, EntryStorable, SegmentReadable;
    forall key | key in index.segments ensures EntryStorable(index, key) {
      SegmentIsStorable(store, index, key);
    }
  }

  lemma SegmentIsStorable(store: Store, index: Index, key: SegmentKey)
    requires WellFormed(store, index) && key in index.segments && AddressOk(index.segments[key].at)
    ensures EntryStorable(index, key)
  {
    hide AddressOk, UsesStorable, Geometry.SegmentCount, ReadsOf;
    assert SegmentReadable(store, index, key);
    UsesOfTable(store, index, key);
  }

  lemma UsesOfTable(store: Store, index: Index, key: SegmentKey)
    requires WellFormed(store, index) && key in index.segments
    ensures UsesStorable(index.checkpoints, index.segments[key].uses)
  {
    hide ReadsOf, UsesStorable;
    assert SegmentReadable(store, index, key);
    var table := store.tables[index.segments[key].at];
    forall relative | relative in table ensures table[relative].ref in index.checkpoints && table[relative].length > 0 {
      assert Readable(store, index.checkpoints, table[relative]);
    }
    ReadsAreStorable(index.checkpoints, table);
  }

  lemma ReadsAreStorable(checkpoints: map<Ref, CheckpointCost>, table: Segment)
    requires forall relative :: relative in table ==> table[relative].ref in checkpoints && table[relative].length > 0
    ensures UsesStorable(checkpoints, ReadsOf(table))
  {
    var refs := SortedRefs(RefsOf(table));
    hide SortedRefs, BytesIn;
    forall i | 0 <= i < |refs| ensures refs[i] in checkpoints && ReadsOf(table)[i].bytes > 0 {
      assert refs[i] in refs;
      BytesInZero(table, refs[i]);
    }
  }
}
