/** Publishing a checkpoint.

A publication inherits its parent's page table, drops what a smaller size cut off,
writes the pages that changed into parts, moves live pages out of checkpoints that
have become mostly dead, and writes the segments it changed and the root that
addresses them. The loops over pages, segments and checkpoints visit them in no
particular order; the program visits them in ascending order, which is one of those.
*/
module Publications {
  import opened Refs
  import opened Geometries
  import opened Roots
  import opened PartWriters
  import opened Liveness
  import opened TableBuilding
  import opened Sealing
  import opened Requests
  import opened Sums

  datatype Error = InvalidConfig | UnknownVolume | EphemeralVolume | InvalidRange | SourceFailed | Unreadable

  datatype Result<+T> = Ok(value: T) | Err(error: Error)

  /** A published checkpoint, and the store once its index object is in it. */
  datatype Published = Published(index: Index, store: Store)

  /** A state that the compaction moves fits behind whatever it may have in hand. */
  ghost predicate MovesWithin(store: Store, format: Format, state: Option<Location>, rewriting: set<Ref>) {
    state.Some? && state.value.ref in rewriting && state.value.Key() in store.parts ==>
      format.encode(store.parts[state.value.Key()].data) <= format.Slack()
  }

  /** The pages of a segment a compaction moves. */
  ghost function Moving(pages: Segment, rewriting: set<Ref>): set<nat> {
    set relative | relative in pages && pages[relative].ref in rewriting
  }

  class Publication {
    const ids: Identities
    const store: Store
    const parent: Option<Index>
    const ref: Ref

    // What the checkpoint publishes.
    var volumes: map<string, Volume>
    var edits: set<PageKey>
    var protect: set<Ref>
    var state: Option<seq<Byte>>
    var dropState: bool
    var vcpus: nat
    var nested: Option<bool>
    var err: Option<Error>

    // What it builds: the root, the segments taken out of the parent's tables to
    // change, the ones among them that did change, and the index object's segments.
    var index: Index
    var working: map<SegmentKey, Segment>
    var dirty: set<SegmentKey>
    var tables: map<SegmentAddress, Segment>

    /** Begin: a checkpoint that inherits parent, which a VM with no history has none of. */
    constructor (ids: Identities, store: Store, parent: Option<Index>, ref: Ref)
      requires parent.Some? ==> WellFormed(store, parent.value) && Legal(ids, parent.value)
      requires Fresh(store, parent, ref)
      ensures Settable() && this.ids == ids && this.store == store && this.parent == parent && this.ref == ref
      ensures volumes == (if parent.Some? then parent.value.volumes else map[])
      ensures edits == {} && protect == {} && state == None && !dropState && vcpus == 0 && nested == None
      ensures err == if ids(ref.vm) && ref.sequence > 0 then None else Some(InvalidConfig)
    {
      this.ids, this.store, this.parent, this.ref := ids, store, parent, ref;
      volumes := if parent.Some? then parent.value.volumes else map[];
      edits, protect, state, dropState, vcpus, nested := {}, {}, None, false, 0, None;
      err := if !ids(ref.vm) || ref.sequence == 0 then Some(InvalidConfig) else None;
      index := Index(ref, map[], map[], map[], None, 0, false);
      working, dirty, tables := map[], {}, map[];
    }

    /** Protect: the sequences of this VM a fork pinned or a checkpoint request kept. */
    method Protect(sequences: set<nat>)
      modifies this`protect
      ensures protect == old(protect) + set sequence | sequence in sequences :: Ref(ref.vm, sequence)
    {
      protect := protect + set sequence | sequence in sequences :: Ref(ref.vm, sequence);
    }

    method Fail(error: Error)
      modifies this`err
      ensures err == if old(err).Some? then old(err) else Some(error)
    {
      if err.None? { err := Some(error); }
    }

    /** SetSize: resizes a volume the checkpoint already has, which keeps its geometry. */
    method SetSize(volume: string, size: nat)
      requires Settable()
      modifies this`volumes, this`err
      ensures Settable()
      ensures size % SECTOR_SIZE == 0 && volume in old(volumes) ==>
                err == old(err) && volumes == old(volumes)[volume := old(volumes)[volume].(size := size)]
      ensures size % SECTOR_SIZE != 0 || volume !in old(volumes) ==> err.Some? && volumes == old(volumes)
    {
      if !ValidName(volume) || size % SECTOR_SIZE != 0 { Fail(InvalidConfig); return; }
      if volume !in volumes { Fail(UnknownVolume); return; }
      volumes := volumes[volume := volumes[volume].(size := size)];
    }

    /** Add: a volume the checkpoint does not have yet, at a geometry this build writes. */
    method Add(volume: string, size: nat, geometry: Geometry, ephemeral: bool)
      requires Settable()
      modifies this`volumes, this`err
      ensures Settable()
      ensures ValidName(volume) && size % SECTOR_SIZE == 0 && geometry.Supported() && volume !in old(volumes) ==>
                err == old(err) && volumes == old(volumes)[volume := Volume(size, geometry, ephemeral)]
      ensures !ValidName(volume) || size % SECTOR_SIZE != 0 || !geometry.Supported() || volume in old(volumes) ==>
                err.Some? && volumes == old(volumes)
    {
      if !ValidName(volume) || size % SECTOR_SIZE != 0 || !geometry.Supported() || volume in volumes {
        Fail(InvalidConfig);
        return;
      }
      volumes := volumes[volume := Volume(size, geometry, ephemeral)];
    }

    /** Dirty: a page that changed and must be republished whole. */
    method Dirty(volume: string, page: nat)
      modifies this`edits, this`err
      ensures ValidName(volume) ==> edits == old(edits) + {PageKey(volume, page)} && err == old(err)
      ensures !ValidName(volume) ==> edits == old(edits) && err.Some?
    {
      if !ValidName(volume) { Fail(InvalidConfig); return; }
      edits := edits + {PageKey(volume, page)};
    }

    /** SetVCPUs: how many processors a boot of this checkpoint gives the guest. */
    method SetVCPUs(count: int)
      requires Settable()
      modifies this`vcpus, this`err
      ensures Settable()
      ensures 1 <= count <= MAXIMUM_VCPUS ==> vcpus == count && err == old(err)
      ensures !(1 <= count <= MAXIMUM_VCPUS) ==> vcpus == old(vcpus) && err.Some?
    {
      if count < 1 || count > MAXIMUM_VCPUS { Fail(InvalidConfig); return; }
      vcpus := count;
    }

    /** SetNested: whether a boot of this checkpoint is a nested VM. */
    method SetNested(nests: bool)
      modifies this`nested
      ensures nested == Some(nests)
    {
      nested := Some(nests);
    }

    method SetState(data: seq<Byte>)
      modifies this`state, this`dropState, this`err
      ensures |data| <= MAXIMUM_STATE_SIZE ==> state == Some(data) && !dropState && err == old(err)
      ensures |data| > MAXIMUM_STATE_SIZE ==> state == old(state) && dropState == old(dropState) && err.Some?
    {
      if |data| > MAXIMUM_STATE_SIZE { Fail(InvalidRange); return; }
      state, dropState := Some(data), false;
    }

    method DropState()
      modifies this`state, this`dropState
      ensures state == None && dropState
    {
      state, dropState := None, true;
    }

    ghost predicate Supported()
      reads this`volumes
    {
      forall volume :: volume in volumes ==> volumes[volume].geometry.Supported()
    }

    /** What may be published: the volumes are the parent's, at their geometry, and volumes of a supported one, all with
        names and sizes a reader accepts, and the checkpoint is named validly or the publication has failed. */
    ghost predicate Settable()
      reads this`volumes, this`vcpus, this`err
    {
      && (err.None? ==> Nameable())
      && (parent.Some? ==> WellFormed(store, parent.value) && Legal(ids, parent.value))
      && Fresh(store, parent, ref)
      && LegalVolumes(volumes) && vcpus <= MAXIMUM_VCPUS
      && Supported()
      && (parent.Some? ==>
            forall volume :: volume in parent.value.volumes ==>
              && volume in volumes
              && volumes[volume].geometry == parent.value.volumes[volume].geometry
              && volumes[volume].ephemeral == parent.value.volumes[volume].ephemeral)
    }

    /** The checkpoint's reference is one a reader accepts. */
    predicate Nameable() { ids(ref.vm) && ref.sequence > 0 }

    ghost predicate Configured()
      reads this`volumes, this`vcpus, this`err
    {
      Nameable() && Settable()
    }

    /** The processors a boot of this checkpoint gives: what was set, or the parent's. */
    function Processors(): nat
      reads this`vcpus
    {
      if vcpus != 0 then vcpus else if parent.Some? then parent.value.vcpus else 0
    }

    function Nests(): bool
      reads this`nested
    {
      if nested.Some? then nested.value else parent.Some? && parent.value.nested
    }

    /** What the publication was asked for. */
    ghost function Asked(): Request
      reads this`volumes, this`edits, this`protect, this`state, this`dropState, this`vcpus, this`nested
    {
      Request(store, parent, ref, volumes, edits, protect, state, dropState, Processors(), Nests())
    }

    /** What every phase keeps of the table being built. */
    ghost predicate Building(members: map<MemberKey, Member>)
      reads this
    {
      && Configured()
      && index.ref == ref && index.volumes == volumes && index.vcpus == Processors() && index.nested == Nests()
      && index.segments == Inherited(parent, volumes)
      && dirty <= working.Keys
      && (forall key :: key in working ==> Worked(store, parent, index, members, key, working[key], key in dirty))
      && (forall key :: key in dirty ==> Differs(store, index, key, working[key]))
    }

    ghost function Segment(key: SegmentKey): Segment
      reads this
    {
      View(store, index, working, key)
    }

    ghost function Where(volume: string, page: nat): Option<Location>
      requires volume in index.volumes && index.volumes[volume].geometry.Supported()
      reads this
    {
      At(store, index, working, volume, page)
    }

    lemma InheritedSound(members: map<MemberKey, Member>, key: SegmentKey)
      requires Building(members) && key in index.segments
      ensures key.volume in volumes && !volumes[key.volume].ephemeral
      ensures TableOf(store, index, key) == TableOf(store, parent.value, key)
      ensures forall relative :: relative in TableOf(store, index, key) ==>
                && relative < volumes[key.volume].geometry.segmentPages
                && Sound(store, parent, members, ref, TableOf(store, index, key)[relative])
                && Fits(store, members, ref, TableOf(store, index, key)[relative],
                        volumes[key.volume].geometry.pageSize)
    {
      hide Legal, LegalVolumes, Worked, Retained, ReadsOf;
      assert SegmentReadable(store, parent.value, key);
      var table := TableOf(store, index, key);
      forall relative | relative in table
        ensures Sound(store, parent, members, ref, table[relative])
        ensures Fits(store, members, ref, table[relative], volumes[key.volume].geometry.pageSize)
      {
        assert Readable(store, parent.value.checkpoints, table[relative]);
      }
    }

    /** segmentFor: the working copy of one segment, taken out of the root's table the first time. */
    method SegmentFor(key: SegmentKey, ghost members: map<MemberKey, Member>) returns (held: Segment)
      requires Building(members) && key.volume in volumes && !volumes[key.volume].ephemeral
      modifies this`working
      ensures Building(members)
      ensures key in working && held == working[key] == old(Segment(key))
      ensures forall other :: Segment(other) == old(Segment(other))
    {
      hide WellFormed, Legal, LegalVolumes, Inherited, Fresh, Differs, Sound, Fits;
      if key !in working {
        if key in index.segments { InheritedSound(members, key); }
        working := working[key := TableOf(store, index, key)];
      }
      held := working[key];
    }

    /** markDirty: records the working copy a change left. */
    method MarkDirty(key: SegmentKey, pages: Segment, ghost members: map<MemberKey, Member>)
      requires Building(members) && Worked(store, parent, index, members, key, pages, true)
      requires Differs(store, index, key, pages)
      modifies this`working, this`dirty
      ensures Building(members)
      ensures Segment(key) == pages
      ensures forall other :: other != key ==> Segment(other) == old(Segment(other))
      ensures dirty == old(dirty) + {key}
    {
      hide Configured, Inherited, Worked, Differs;
      working := working[key := pages];
      dirty := dirty + {key};
    }

    /** Before any change, a page is where the parent has it, unless its segment was cut off whole. */
    lemma InheritedPage(members: map<MemberKey, Member>, volume: string, page: nat)
      requires Building(members) && volume in volumes
      ensures var v := volumes[volume]; var at := At(store, index, map[], volume, page);
              if parent.Some? && volume in parent.value.volumes &&
                v.geometry.SegmentOf(page) < v.geometry.SegmentCount(v.size)
              then at == Locate(store, parent.value, volume, page)
              else at == None
    {
    }

    lemma UncutIsKept(volume: string, page: nat, members: map<MemberKey, Member>)
      requires Building(members) && volume in volumes
      requires parent.None? || volume !in parent.value.volumes ||
               parent.value.volumes[volume].size <= volumes[volume].size || volumes[volume].size == 0
      ensures At(store, index, map[], volume, page) == KeptAt(store, parent, volumes, volume, page)
    {
      var v := volumes[volume];
      var g := v.geometry;
      InheritedPage(members, volume, page);
      PageInVolume(g, v.size, page);
      SegmentSplit(g, page);
      if parent.Some? && volume in parent.value.volumes {
        var key := SegmentKey(volume, g.SegmentOf(page));
        if key in parent.value.segments {
          assert SegmentReadable(store, parent.value, key);
          if v.size > 0 { CountsMonotone(g, parent.value.volumes[volume].size, v.size); }
        }
      }
    }

    lemma CutIsKept(volume: string, page: nat, members: map<MemberKey, Member>)
      requires Building(members) && volume in volumes && volumes[volume].size > 0
      ensures var v := volumes[volume]; var g := v.geometry;
              && g.PageCount(v.size) > 0
              && (page >= g.PageCount(v.size) ==> KeptAt(store, parent, volumes, volume, page) == None)
              && (page < g.PageCount(v.size) ==>
                    At(store, index, map[], volume, page) == KeptAt(store, parent, volumes, volume, page))
              && (At(store, index, map[], volume, page).Some? && page >= g.PageCount(v.size) ==>
                    g.SegmentOf(page) == g.SegmentOf(g.PageCount(v.size) - 1))
    {
      hide WellFormed, Legal, LegalVolumes, Fresh, Geometry.SegmentOf, Geometry.OffsetIn, Geometry.PageCount;
      hide Geometry.SegmentCount;
      var v := volumes[volume];
      InheritedPage(members, volume, page);
      PageInVolume(v.geometry, v.size, page);
      PageInVolume(v.geometry, v.size, 0);
      if v.geometry.SegmentOf(page) < v.geometry.SegmentCount(v.size) {
        OnlyLastSegmentStraddles(v.geometry, v.size, page);
      }
    }

    ghost function Below(g: Geometry, number: nat, limit: nat, pages: Segment): Segment
      requires g.Supported()
    {
      map relative | relative in pages && g.SegmentBase(number) + relative < limit :: pages[relative]
    }

    /** Drops the pages of one segment at or past limit. */
    method CutSegment(key: SegmentKey, limit: nat, ghost members: map<MemberKey, Member>)
      requires Building(members) && key in index.segments && key.volume in volumes && !volumes[key.volume].ephemeral
      requires key !in dirty
      modifies this`working, this`dirty
      ensures Building(members) && dirty <= old(dirty) + {key}
      ensures Segment(key) == Below(volumes[key.volume].geometry, key.number, limit, old(Segment(key)))
      ensures forall other :: other != key ==> Segment(other) == old(Segment(other))
    {
      hide WellFormed, Legal, LegalVolumes, Fresh, Inherited, Geometry.SegmentBase;
      var held := SegmentFor(key, members);
      var base := volumes[key.volume].geometry.SegmentBase(key.number);
      var kept := map relative | relative in held && base + relative < limit :: held[relative];
      if kept != held {
        assert held == TableOf(store, index, key);
        ghost var gone :| gone in held && gone !in kept;
        assert DiffersAt(TableOf(store, index, key), kept, index.ref, gone);
        MarkDirty(key, kept, members);
      }
    }

    /** trim: drops the pages a smaller size cut off from the one segment that straddles the new end. */
    method TrimVolume(volume: string, ghost members: map<MemberKey, Member>)
      requires Building(members) && volume in volumes
      requires forall page :: Where(volume, page) == At(store, index, map[], volume, page)
      requires forall key :: key in dirty ==> key.volume != volume
      modifies this`working, this`dirty
      ensures Building(members) && forall key :: key in dirty ==> key in old(dirty) || key.volume == volume
      ensures forall page :: Where(volume, page) == KeptAt(store, parent, volumes, volume, page)
      ensures forall key: SegmentKey :: key.volume != volume ==> Segment(key) == old(Segment(key))
    {
      hide WellFormed, Legal, LegalVolumes, Fresh, Inherited, KeptAt, Differs;
      hide Geometry.SegmentOf, Geometry.OffsetIn, Geometry.PageCount, Geometry.SegmentCount, Geometry.SegmentBase;
      var v := volumes[volume];
      var g := v.geometry;
      if parent.None? || volume !in parent.value.volumes || parent.value.volumes[volume].size <= v.size || v.size == 0 {
        forall page { UncutIsKept(volume, page, members); }
        return;
      }
      forall page { CutIsKept(volume, page, members); }
      CutIsKept(volume, 0, members);
      var pages := g.PageCount(v.size);
      var key := SegmentKey(volume, g.SegmentOf(pages - 1));
      if key in index.segments {
        InheritedSound(members, key);
        CutSegment(key, pages, members);
      }
      forall page ensures Where(volume, page) == KeptAt(store, parent, volumes, volume, page) {
        SegmentSplit(g, page);
        CutIsKept(volume, page, members);
        assert old(Where(volume, page)) == At(store, index, map[], volume, page);
        var within := KeyOf(g, volume, page);
        if within == key {
          if key in index.segments {
            assert Segment(key) == Below(g, key.number, pages, old(Segment(key)));
          }
        } else {
          assert Segment(within) == old(Segment(within));
        }
      }
    }

    method Trim(ghost members: map<MemberKey, Member>)
      requires Building(members) && working == map[] && dirty == {}
      modifies this`working, this`dirty
      ensures Building(members)
      ensures forall volume, page :: volume in volumes ==>
                Where(volume, page) == KeptAt(store, parent, volumes, volume, page)
    {
      hide WellFormed, Legal, LegalVolumes, Fresh, Inherited, KeptAt, Worked, Differs;
      hide Geometry.SegmentOf, Geometry.OffsetIn;
      var todo := volumes.Keys;
      while todo != {}
        invariant todo <= volumes.Keys && Building(members) && forall key :: key in dirty ==> key.volume !in todo
        invariant forall volume, page :: volume in volumes && volume !in todo ==>
                    Where(volume, page) == KeptAt(store, parent, volumes, volume, page)
        invariant forall volume, page :: volume in todo ==>
                    Where(volume, page) == At(store, index, map[], volume, page)
      {
        var volume :| volume in todo;
        TrimVolume(volume, members);
        todo := todo - {volume};
      }
    }

    lemma BuildingGrows(before: map<MemberKey, Member>, after: map<MemberKey, Member>)
      requires Building(before) && Grown(before, after)
      ensures Building(after)
    {
      hide Configured, Inherited, Differs;
      forall key | key in working
        ensures Worked(store, parent, index, after, key, working[key], key in dirty)
      {
        WorkedGrows(store, parent, index, before, after, key, working[key], key in dirty);
      }
    }

    /** A kept page is in the table the root addresses. */
    lemma KeptInTable(page: PageKey)
      requires Configured() && index.volumes == volumes && index.segments == Inherited(parent, volumes)
      requires page.volume in volumes && KeptAt(store, parent, volumes, page.volume, page.page).Some?
      ensures var g := volumes[page.volume].geometry;
        g.OffsetIn(page.page) in TableOf(store, index, KeyOf(g, page.volume, page.page))
    {
      hide WellFormed, Legal, LegalVolumes, Fresh, Geometry.SegmentOf, Geometry.OffsetIn, Geometry.PageCount;
      hide Geometry.SegmentCount;
      var v := volumes[page.volume];
      PageInVolume(v.geometry, v.size, page.page);
    }

    /** What is left of a segment without a kept page, or with a page of this checkpoint's, is not what it was. */
    lemma PutDiffers(page: PageKey, held: Segment, at: Option<Location>)
      requires Configured() && index.ref == ref && index.volumes == volumes
      requires index.segments == Inherited(parent, volumes)
      requires page.volume in volumes
      requires if at.Some? then at.value.ref == ref
               else KeptAt(store, parent, volumes, page.volume, page.page).Some?
      ensures var g := volumes[page.volume].geometry; var key := KeyOf(g, page.volume, page.page);
        var relative := g.OffsetIn(page.page);
        Differs(store, index, key, if at.Some? then held[relative := at.value] else held - {relative})
    {
      hide WellFormed, Legal, LegalVolumes, Fresh, Inherited, KeptAt, Geometry.SegmentOf, Geometry.OffsetIn, TableOf;
      var g := volumes[page.volume].geometry;
      var key, relative := KeyOf(g, page.volume, page.page), g.OffsetIn(page.page);
      if at.None? { KeptInTable(page); }
      assert DiffersAt(TableOf(store, index, key), if at.Some? then held[relative := at.value] else held - {relative},
                       ref, relative);
    }

    /** Records where one page now lives, or that it is a hole; a hole recorded again changes nothing. */
    method PutPage(page: PageKey, at: Option<Location>, ghost members: map<MemberKey, Member>)
      requires Building(members) && page.volume in volumes && !volumes[page.volume].ephemeral
      requires at.Some? ==> at.value.ref == ref && Sound(store, parent, members, ref, at.value)
      requires at.Some? ==> Fits(store, members, ref, at.value, volumes[page.volume].geometry.pageSize)
      requires Where(page.volume, page.page) == KeptAt(store, parent, volumes, page.volume, page.page)
      modifies this`working, this`dirty
      ensures Building(members)
      ensures Where(page.volume, page.page) == at
      ensures forall volume, number :: volume in volumes && PageKey(volume, number) != page ==>
                Where(volume, number) == old(Where(volume, number))
    {
      hide WellFormed, Legal, LegalVolumes, Fresh, Inherited, Geometry.SegmentOf, Geometry.OffsetIn, Sound, Differs;
      hide KeptAt;
      var g := volumes[page.volume].geometry;
      var key := SegmentKey(page.volume, g.SegmentOf(page.page));
      var relative := g.OffsetIn(page.page);
      SegmentSplit(g, page.page);
      var held := SegmentFor(key, members);
      if at.Some? || relative in held { PutDiffers(page, held, at); }
      if at.Some? {
        MarkDirty(key, held[relative := at.value], members);
      } else if relative in held {
        MarkDirty(key, held - {relative}, members);
      }
      forall other | other != key
        ensures View(store, index, old(working), other) == View(store, index, working, other)
      {
        assert Segment(other) == old(Segment(other));
      }
      OnlyOnePage(store, index, old(working), working, page);
    }

    /** Rewrites one changed page from the source, whole. */
    method EditPage(page: PageKey, writer: PartWriter, source: Source) returns (failure: Option<Error>)
      requires Building(writer.members) && writer.Valid() && writer.ref == ref && Fills(source)
      requires page.volume in volumes && !volumes[page.volume].ephemeral
      requires Where(page.volume, page.page) == KeptAt(store, parent, volumes, page.volume, page.page)
      modifies this`working, this`dirty, writer
      ensures writer.Valid() && Grown(old(writer.members), writer.members)
      ensures |writer.members| <= |old(writer.members)| + 1
      ensures Building(writer.members)
      ensures failure.None? ==>
                Edited(volumes, source, writer.members, ref, page, Where(page.volume, page.page))
      ensures old(writer.Bounded()) ==> writer.Bounded() && (failure.None? <==> CanEdit(volumes, source, page))
      ensures failure in {None, Some(InvalidRange), Some(SourceFailed)}
      ensures forall volume, number :: volume in volumes && PageKey(volume, number) != page ==>
                Where(volume, number) == old(Where(volume, number))
    {
      hide PartWriter.Valid;
      hide WellFormed, Legal, LegalVolumes, Fresh, Inherited, Worked, At, KeptAt, Differs;
      var g := volumes[page.volume].geometry;
      var span := g.PageSpan(volumes[page.volume].size, page.page);
      if span == 0 { return Some(InvalidRange); }
      var read := source(page.volume, page.page, span);
      if read.None? { return Some(SourceFailed); }
      var data := read.value;
      IsZeroMeansAllZero(data);
      if IsZero(data) {
        PutPage(page, None, writer.members);
      } else {
        ghost var before := writer.members;
        var placed := writer.Submit(ref, data);
        BuildingGrows(before, writer.members);
        if placed.None? { return Some(InvalidRange); }
        PutPage(page, placed, writer.members);
      }
      return None;
    }

    /** writeEdits: rewrites every changed page. */
    method WriteEdits(writer: PartWriter, source: Source) returns (failure: Option<Error>)
      requires Building(writer.members) && writer.Valid() && writer.ref == ref && Fills(source)
      requires forall page :: page in edits ==> page.volume in volumes && !volumes[page.volume].ephemeral
      requires forall volume, page :: volume in volumes ==>
                 Where(volume, page) == KeptAt(store, parent, volumes, volume, page)
      modifies this`working, this`dirty, writer
      ensures writer.Valid() && Grown(old(writer.members), writer.members)
      ensures |writer.members| <= |old(writer.members)| + |edits|
      ensures Building(writer.members)
      ensures failure.None? ==>
                forall page: PageKey :: page.volume in volumes ==>
                  if page in edits
                  then Edited(volumes, source, writer.members, ref, page, Where(page.volume, page.page))
                  else Where(page.volume, page.page) == KeptAt(store, parent, volumes, page.volume, page.page)
      ensures old(writer.Bounded()) ==>
                writer.Bounded() && (failure.None? <==> forall page :: page in edits ==> CanEdit(volumes, source, page))
      ensures failure in {None, Some(InvalidRange), Some(SourceFailed)}
    {
      hide PartWriter.Valid;
      hide WellFormed, Legal, LegalVolumes, Fresh, Inherited, Worked, At, KeptAt, Edited, CanEdit, Differs;
      var todo := edits;
      while todo != {}
        invariant todo <= edits && |writer.members| + |todo| <= |old(writer.members)| + |edits|
        invariant writer.Valid() && Grown(old(writer.members), writer.members) && Building(writer.members)
        invariant old(writer.Bounded()) ==>
                    writer.Bounded() && forall page :: page in edits && page !in todo ==> CanEdit(volumes, source, page)
        invariant forall page :: page in edits && page !in todo ==>
                    Edited(volumes, source, writer.members, ref, page, Where(page.volume, page.page))
        invariant forall page: PageKey :: page.volume in volumes && (page !in edits || page in todo) ==>
                    Where(page.volume, page.page) == KeptAt(store, parent, volumes, page.volume, page.page)
      {
        var page :| page in todo;
        ghost var before := writer.members;
        label Before:
        var failed := EditPage(page, writer, source);
        if failed.Some? { return failed; }
        forall other | other in edits && other !in todo
          ensures Edited(volumes, source, writer.members, ref, other, Where(other.volume, other.page))
        {
          assert Where(other.volume, other.page) == old@Before(Where(other.volume, other.page));
          EditedGrows(volumes, source, before, writer.members, ref, other, Where(other.volume, other.page));
        }
        todo := todo - {page};
      }
      return None;
    }

    // ------------------------------------------------------------- compaction

    /** Every segment of the table being built, those not yet in the root among them. */
    ghost function Views(): map<SegmentKey, Segment>
      reads this
    {
      map key | key in index.segments.Keys + dirty :: Segment(key)
    }

    /** The encoded bytes the table being built and its state read from one checkpoint, every segment opened. */
    ghost function TrueLive(ref: Ref): nat
      reads this
    {
      SumBytes(Views(), ref) + (if index.state.Some? then Weight(index.state.value, ref) else 0)
    }

    ghost function TrueLives(): map<Ref, nat>
      reads this
    {
      map other | other in index.checkpoints :: TrueLive(other)
    }

    /** A segment this checkpoint has not changed answers for itself out of the root. */
    lemma UsesAnswer(members: map<MemberKey, Member>, key: SegmentKey, ref: Ref)
      requires Building(members) && key in index.segments && key !in dirty
      ensures BytesOf(index.segments[key].uses, ref) == BytesIn(Segment(key), ref)
    {
      assert SegmentReadable(store, parent.value, key);
      InheritedSound(members, key);
      ReadsAnswer(Segment(key), ref);
    }

    /** A segment only this checkpoint has reads only from this checkpoint. */
    lemma NewSegmentReadsItself(members: map<MemberKey, Member>, key: SegmentKey, other: Ref)
      requires Building(members) && key in dirty && key !in index.segments && other != ref
      ensures BytesIn(Segment(key), other) == 0
    {
      hide Configured, Inherited, Sound;
      assert Worked(store, parent, index, members, key, working[key], true);
      NothingRead(working[key], other);
    }

    lemma NewSegmentsAddNothing(members: map<MemberKey, Member>, other: Ref)
      requires Building(members) && other != ref
      ensures SumBytes(Views(), other) == SumBytes(Addressed(), other)
    {
      hide Building, View, BytesIn, SumBytes;
      var added := dirty - index.segments.Keys;
      assert Views() - added == Addressed();
      forall key | key in added ensures BytesIn(Views()[key], other) == 0 {
        NewSegmentReadsItself(members, key, other);
      }
      SumBytesIgnores(Views(), added, other);
    }

    /** liveBytes: what the root's records and the segments in hand say is what opening every segment would say, for
        every checkpoint but this one, whose new segments are not in the root yet. */
    method LiveBytes(ghost members: map<MemberKey, Member>) returns (live: map<Ref, nat>)
      requires Building(members)
      ensures forall other :: other != ref ==> Get(live, other) == TrueLive(other)
    {
      hide Configured, Inherited, Worked, BytesIn, View, Building;
      live := SumSegments(members);
      if index.state.Some? {
        var at := index.state.value;
        live := live[at.ref := Get(live, at.ref) + at.length];
      }
      forall other | other != ref ensures Get(live, other) == TrueLive(other) {
        NewSegmentsAddNothing(members, other);
      }
    }

    /** The segments the root addresses, as the table being built has them. */
    ghost function Addressed(): map<SegmentKey, Segment>
      reads this
    {
      map key | key in index.segments :: Segment(key)
    }

    method SumSegments(ghost members: map<MemberKey, Member>) returns (live: map<Ref, nat>)
      requires Building(members)
      ensures forall other :: Get(live, other) == SumBytes(Addressed(), other)
    {
      hide Building, View, BytesIn, SumBytes;
      SumBytesOfNone();
      live := map[];
      var todo := index.segments.Keys;
      ghost var done: map<SegmentKey, Segment> := map[];
      while todo != {}
        invariant todo <= index.segments.Keys
        invariant done == map key | key in index.segments && key !in todo :: Segment(key)
        invariant forall other :: Get(live, other) == SumBytes(done, other)
      {
        var key :| key in todo;
        live := AddSegment(live, key, members);
        forall other { SumBytesAdd(done, key, Segment(key), other); }
        done := done[key := Segment(key)];
        todo := todo - {key};
      }
      assert done == Addressed();
    }

    /** A changed segment is read; any other answers out of the root. */
    method AddSegment(live: map<Ref, nat>, key: SegmentKey, ghost members: map<MemberKey, Member>)
      returns (sum: map<Ref, nat>)
      requires Building(members) && key in index.segments
      ensures forall other :: Get(sum, other) == Get(live, other) + BytesIn(Segment(key), other)
    {
      hide Configured, Inherited, Worked, BytesIn, BytesOf;
      if key in dirty {
        sum := AddPages(live, working[key]);
      } else {
        forall other { UsesAnswer(members, key, other); }
        sum := AddUses(live, index.segments[key].uses);
      }
    }

    /** Copies the pages one segment reads from the checkpoints being rewritten into this checkpoint's parts. */
    method MovePages(held: Segment, rewriting: set<Ref>, writer: PartWriter) returns (moved: Option<Segment>)
      requires writer.Valid() && writer.ref == ref && ref !in rewriting
      requires forall relative :: relative in held && held[relative].ref in rewriting ==>
                 held[relative].Key() in store.parts && |store.parts[held[relative].Key()].data| <= PAGE_SIZE_2MIB
      modifies writer
      ensures old(writer.Bounded()) ==> writer.Bounded() && moved.Some?
      ensures writer.Valid() && Grown(old(writer.members), writer.members)
      ensures |writer.members| <= |old(writer.members)| + |Moving(held, rewriting)|
      ensures moved.Some? ==> Moved(store, writer.members, ref, rewriting, held, moved.value)
    {
      hide PartWriter.Valid;
      var pages := held;
      var todo := set relative | relative in held && held[relative].ref in rewriting;
      while todo != {}
        invariant todo <= held.Keys && pages.Keys == held.Keys
        invariant |writer.members| + |todo| <= |old(writer.members)| + |Moving(held, rewriting)|
        invariant old(writer.Bounded()) ==> writer.Bounded()
        invariant writer.Valid() && Grown(old(writer.members), writer.members)
        invariant forall relative :: relative in todo ==>
          pages[relative] == held[relative] && held[relative].ref in rewriting
        invariant forall relative :: relative in held && relative !in todo ==>
                    MovedAt(store, writer.members, ref, rewriting, held[relative], pages[relative])
      {
        var relative :| relative in todo;
        var at := held[relative];
        var placed := writer.Submit(at.origin, store.parts[at.Key()].data);
        if placed.None? { return None; }
        pages := pages[relative := placed.value];
        todo := todo - {relative};
      }
      return Some(pages);
    }

    /** A segment that neither changed nor records a read of a rewritten checkpoint has no page in one. */
    lemma UntouchedReadsNothing(members: map<MemberKey, Member>, rewriting: set<Ref>, key: SegmentKey)
      requires Building(members) && key in index.segments && key !in dirty
      requires forall i :: 0 <= i < |index.segments[key].uses| ==> index.segments[key].uses[i].ref !in rewriting
      ensures forall relative :: relative in Segment(key) ==> Segment(key)[relative].ref !in rewriting
    {
      assert SegmentReadable(store, parent.value, key);
      InheritedSound(members, key);
      forall relative | relative in Segment(key) ensures Segment(key)[relative].ref !in rewriting {
        ReadsName(Segment(key), Segment(key)[relative].ref);
      }
    }

    /** Moves the pages of one segment out of the checkpoints being rewritten, opening it only if the root says it reads
        from one or it is in hand. */
    method RewriteSegment(key: SegmentKey, rewriting: set<Ref>, writer: PartWriter) returns (ok: bool)
      requires Building(writer.members) && writer.Valid() && writer.ref == ref
      requires key in index.segments && Own(ref, rewriting)
      modifies this`working, this`dirty, writer
      ensures Building(writer.members) && writer.Valid() && Grown(old(writer.members), writer.members)
      ensures ok ==> Moved(store, writer.members, ref, rewriting, old(Segment(key)), Segment(key))
      ensures |writer.members| <= |old(writer.members)| + |Moving(old(Segment(key)), rewriting)|
      ensures old(writer.Bounded()) ==> writer.Bounded() && ok
      ensures forall other :: other != key ==> Segment(other) == old(Segment(other))
    {
      hide PartWriter.Valid;
      hide WellFormed, Legal, LegalVolumes, Fresh, Inherited, BytesIn, Sound, Fits, Moved, Differs, Moving;
      InheritedSound(writer.members, key);
      var uses := index.segments[key].uses;
      if key !in dirty && forall i :: 0 <= i < |uses| ==> uses[i].ref !in rewriting {
        UntouchedReadsNothing(writer.members, rewriting, key);
        MovedNothing(store, writer.members, ref, rewriting, Segment(key));
        return true;
      }
      var held := SegmentFor(key, writer.members);
      if forall relative :: relative in held ==> held[relative].ref !in rewriting {
        MovedNothing(store, writer.members, ref, rewriting, held);
        return true;
      }
      ghost var before := writer.members;
      ghost var changed := key in dirty;
      ghost var some :| some in held && held[some].ref in rewriting;
      assert Worked(store, parent, index, before, key, held, changed);
      MovesPages(store, parent, index, before, rewriting, key, held, changed);
      var moved := MovePages(held, rewriting, writer);
      BuildingGrows(before, writer.members);
      if moved.None? { return false; }
      WorkedGrows(store, parent, index, before, writer.members, key, held, changed);
      MovedWorked(store, parent, index, writer.members, rewriting, key, held, moved.value, changed);
      MovedDiffers(store, index, writer.members, rewriting, key, held, moved.value, some);
      MarkDirty(key, moved.value, writer.members);
      return true;
    }

    /** How many pages of each segment a compaction moves. */
    ghost function MovingCounts(rewriting: set<Ref>): map<SegmentKey, nat>
      reads this
    {
      map key | key in index.segments :: |Moving(Segment(key), rewriting)|
    }

    method RewriteSegments(rewriting: set<Ref>, writer: PartWriter) returns (ok: bool)
      requires Building(writer.members) && writer.Valid() && writer.ref == ref && Own(ref, rewriting)
      modifies this`working, this`dirty, writer
      ensures Building(writer.members) && writer.Valid() && Grown(old(writer.members), writer.members)
      ensures ok ==> forall key :: Moved(store, writer.members, ref, rewriting, old(Segment(key)), Segment(key))
      ensures |writer.members| <= |old(writer.members)| + Sum(old(MovingCounts(rewriting)))
      ensures old(writer.Bounded()) ==> writer.Bounded() && ok
    {
      hide PartWriter.Valid;
      hide WellFormed, Legal, LegalVolumes, Fresh, Inherited, Moved, View, Worked, Differs, Moving, Sum, Building;
      BuildingIsBased(writer.members);
      var todo := index.segments.Keys;
      ghost var counts := MovingCounts(rewriting);
      ghost var left := counts;
      forall key | key !in index.segments
        ensures Moved(store, writer.members, ref, rewriting, Segment(key), Segment(key))
      {
        NewSegmentMovesNothing(writer.members, rewriting, key);
      }
      while todo != {}
        invariant todo <= index.segments.Keys && (old(writer.Bounded()) ==> writer.Bounded())
        invariant left.Keys == todo && forall key :: key in left ==> left[key] == counts[key]
        invariant |writer.members| + Sum(left) <= |old(writer.members)| + Sum(counts)
        invariant Building(writer.members) && writer.Valid() && Grown(old(writer.members), writer.members)
        invariant forall key :: key in todo ==> Segment(key) == old(Segment(key))
        invariant forall key :: key !in todo ==>
                    Moved(store, writer.members, ref, rewriting, old(Segment(key)), Segment(key))
      {
        var key :| key in todo;
        ghost var before := writer.members;
        SumRemove(left, key);
        label Before:
        var moved := RewriteSegment(key, rewriting, writer);
        if !moved { return false; }
        todo, left := todo - {key}, left - {key};
        forall other | other !in todo
          ensures Moved(store, writer.members, ref, rewriting, old(Segment(other)), Segment(other))
        {
          if other != key {
            MovedGrows(store, before, writer.members, ref, rewriting, old(Segment(other)), old@Before(Segment(other)));
          }
        }
      }
      return true;
    }

    lemma NewSegmentMovesNothing(members: map<MemberKey, Member>, rewriting: set<Ref>, key: SegmentKey)
      requires Building(members) && key !in index.segments && Own(ref, rewriting)
      ensures Moved(store, members, ref, rewriting, Segment(key), Segment(key))
    {
      hide Configured, Inherited, Sound;
      if key in working { assert Worked(store, parent, index, members, key, working[key], key in dirty); }
      MovedNothing(store, members, ref, rewriting, Segment(key));
    }

    /** protectedCheckpoints: each protected checkpoint and every one its index names; None where one cannot be read. */
    method ProtectedCheckpoints() returns (protected: Option<set<Ref>>)
      ensures protected.Some? <==> protect <= store.roots.Keys
      ensures protected.Some? ==> protected.value == Asked().Spared()
    {
      var spared: set<Ref> := {};
      var todo := protect;
      while todo != {}
        invariant todo <= protect && protect - todo <= store.roots.Keys
        invariant spared == Asked().(protect := protect - todo).Spared()
      {
        var kept :| kept in todo;
        if kept !in store.roots { return None; }
        spared := spared + {kept} + Named(store.roots[kept]);
        SparesOneMore(Asked().(protect := protect - todo), kept);
        todo := todo - {kept};
        assert protect - todo == protect - todo - {kept} + {kept};
      }
      assert protect - todo == protect;
      return Some(spared);
    }

    /** Replaces what the root says besides its tables. */
    method Reindex(next: Index, ghost members: map<MemberKey, Member>)
      requires Building(members) && SameTables(index, next) && next.vcpus == index.vcpus && next.nested == index.nested
      modifies this`index
      ensures Building(members) && index == next
      ensures forall key :: Segment(key) == old(Segment(key))
    {
      hide WellFormed, Legal, LegalVolumes, Fresh, Inherited, Sound, Differs;
      forall key | key in dirty ensures Differs(store, next, key, working[key]) {
        DiffersStill(store, index, next, key, working[key]);
      }
      index := next;
      forall key | key in working ensures Worked(store, parent, index, members, key, working[key], key in dirty) {
        assert Worked(store, parent, old(index), members, key, working[key], key in dirty);
      }
    }

    /** The checkpoints a compaction empties: of the VM's own that are mostly dead, not emptied already and named by no
        protected one, the deadest that fit the budget together. */
    ghost predicate Chosen(rewriting: set<Ref>)
      reads this
    {
      && Greedy(ref, Asked().Spared(), index.checkpoints, TrueLives(), rewriting)
      && Total(rewriting, TrueLives()) <= COMPACTION_BUDGET
    }

    lemma ChosenIsOwn(rewriting: set<Ref>)
      requires Chosen(rewriting)
      ensures Own(ref, rewriting) && rewriting <= index.checkpoints.Keys && rewriting !! Asked().Spared()
    {
      hide Total, TrueLive, Deader;
    }

    method ChooseEmptied(ghost members: map<MemberKey, Member>) returns (chosen: Option<set<Ref>>)
      requires Building(members) && if parent.Some? then ref !in index.checkpoints else index.checkpoints == map[]
      ensures chosen.Some? <==> parent.None? || protect <= store.roots.Keys
      ensures chosen.Some? ==> Chosen(chosen.value)
    {
      hide Configured, Inherited, Worked, TrueLive, Differs, Deader;
      if parent.None? { return Some({}); }
      var protected := ProtectedCheckpoints();
      if protected.None? { return None; }
      if forall other :: other in index.checkpoints ==> !Eligible(ref, protected.value, index.checkpoints, other) {
        return Some({});
      }
      var live := LiveBytes(members);
      var taken := ChooseRewrites(ref, protected.value, index.checkpoints, live);
      GreedySame(ref, protected.value, index.checkpoints, live, TrueLives(), taken);
      return Some(taken);
    }

    /** Marks the checkpoints being rewritten emptied and moves every page, and the state, out of them. */
    method Rewrite(rewriting: set<Ref>, writer: PartWriter) returns (ok: bool)
      requires Building(writer.members) && writer.Valid() && writer.ref == ref
      requires Own(ref, rewriting) && rewriting <= index.checkpoints.Keys
      requires index.state.Some? ==> Sound(store, parent, writer.members, ref, index.state.value)
      modifies this`index, this`working, this`dirty, writer
      ensures Building(writer.members) && writer.Valid() && Grown(old(writer.members), writer.members)
      ensures ok ==> Compacts(store, writer.members, rewriting, old(index), old(working), index, working)
      ensures |writer.members| <=
              |old(writer.members)| + Sum(old(MovingCounts(rewriting))) + old(StateMoves(rewriting))
      ensures old(writer.Bounded()) ==>
                ok && (MovesWithin(store, writer.format, old(index.state), rewriting) ==> writer.Bounded())
    {
      hide PartWriter.Valid;
      hide Configured, Inherited, Worked, View, Moved, Moving, Sum, Building, Sound;
      BuildingIsBased(writer.members);
      Reindex(index.(checkpoints := Emptied(index.checkpoints, rewriting, ref.sequence)), writer.members);
      assert MovingCounts(rewriting) == old(MovingCounts(rewriting)) by {
        assert forall key :: Segment(key) == old(Segment(key));
      }
      ok := RewriteSegments(rewriting, writer);
      if ok && index.state.Some? && index.state.value.ref in rewriting {
        ghost var before := writer.members;
        MovedIsStored(store, parent, old(writer.members), ref, rewriting, index.state.value);
        ok := MoveState(rewriting, writer);
        forall key | ok ensures Moved(store, writer.members, ref, rewriting, old(Segment(key)), Segment(key)) {
          MovedGrows(store, before, writer.members, ref, rewriting, old(Segment(key)), Segment(key));
        }
      }
      forall key | ok
        ensures Moved(store, writer.members, ref, rewriting, View(store, old(index), old(working), key),
                      View(store, index, working, key))
      {
        assert Moved(store, writer.members, ref, rewriting, old(Segment(key)), Segment(key));
      }
    }

    /** One member more where the compaction moves the state. */
    ghost function StateMoves(rewriting: set<Ref>): nat
      reads this`index
    {
      if index.state.Some? && index.state.value.ref in rewriting then 1 else 0
    }

    /** The state moves after the pages, into whatever part is in hand. */
    method MoveState(rewriting: set<Ref>, writer: PartWriter) returns (ok: bool)
      requires Building(writer.members) && writer.Valid() && writer.ref == ref && Own(ref, rewriting)
      requires index.state.Some? && index.state.value.ref in rewriting && index.state.value.Key() in store.parts
      modifies this`index, writer
      ensures Building(writer.members) && writer.Valid() && Grown(old(writer.members), writer.members)
      ensures |writer.members| <= |old(writer.members)| + 1
      ensures index == old(index).(state := index.state) && index.state.Some?
      ensures forall key :: Segment(key) == old(Segment(key))
      ensures ok ==>
                && MovedAt(store, writer.members, ref, rewriting, old(index.state).value, index.state.value)
                && index.state.value.offset == old(writer.Body())
      ensures old(writer.Bounded()) ==>
                ok && (MovesWithin(store, writer.format, old(index.state), rewriting) ==> writer.Bounded())
    {
      hide PartWriter.Valid;
      hide Configured, Inherited, Worked, View, Differs, Building;
      var at := index.state.value;
      ghost var before := writer.members;
      var placed := writer.Submit(at.origin, store.parts[at.Key()].data);
      BuildingGrows(before, writer.members);
      if placed.None? { return false; }
      Reindex(index.(state := placed), writer.members);
      return true;
    }

    /** compact: moves the live pages out of the deadest checkpoints of this VM, within the budget. */
    method Compact(writer: PartWriter) returns (failure: Option<Error>, rewriting: set<Ref>)
      requires Building(writer.members) && writer.Valid() && writer.ref == ref
      requires if parent.Some? then ref !in index.checkpoints else index.checkpoints == map[]
      requires index.state.Some? ==> Sound(store, parent, writer.members, ref, index.state.value)
      modifies this`index, this`working, this`dirty, writer
      ensures Building(writer.members) && writer.Valid() && Grown(old(writer.members), writer.members)
      ensures failure.None? ==>
                && old(Chosen(rewriting)) && Own(ref, rewriting) && rewriting <= old(index.checkpoints).Keys
                && Compacts(store, writer.members, rewriting, old(index), old(working), index, working)
                && |writer.members| <=
                   |old(writer.members)| + Sum(old(MovingCounts(rewriting))) + old(StateMoves(rewriting))
      ensures old(writer.Bounded()) ==>
                && (failure.None? <==> parent.None? || protect <= store.roots.Keys)
                && (failure.None? && MovesWithin(store, writer.format, old(index.state), rewriting) ==>
                    writer.Bounded())
      ensures failure in {None, Some(InvalidRange), Some(Unreadable)}
    {
      hide Configured, Inherited, Worked, View, TrueLive, Building, Sound, Compacts, Chosen, Sum;
      var chosen := ChooseEmptied(writer.members);
      if chosen.None? { return Some(Unreadable), {}; }
      rewriting := chosen.value;
      ChosenIsOwn(rewriting);
      if rewriting == {} {
        CompactsNothing(store, writer.members, index, working);
        return None, rewriting;
      }
      var ok := Rewrite(rewriting, writer);
      failure := if ok then None else Some(InvalidRange);
    }

    /** writeSegments: writes the changed segments into the index object; one left with no pages loses its entry. */
    method WriteSegments(format: Format) returns (ok: bool, end: nat)
      requires dirty <= working.Keys && tables == map[] && format.Valid()
      modifies this`index, this`tables
      ensures index == old(index).(segments := index.segments)
      ensures ok <==> ShortSegments(format, working, dirty)
      ensures ok ==>
                && end == EndOf(format, working, dirty) && InTurn(format, index.segments, working, dirty)
                && (forall at :: at in tables ==> Inside(ref, at, end))
                && forall key :: Written(old(index.segments), index.segments, tables, ref, dirty, working, key)
    {
      hide ReadsOf, Written, Sum;
      NoneWritten(index.segments, tables, ref, working);
      assert dirty - dirty == {};
      ok, end := true, INDEX_RECORD_SIZE;
      NothingWritten(format, index.segments, working);
      var todo := dirty;
      while todo != {}
        invariant todo <= dirty
        invariant index == old(index).(segments := index.segments)
        invariant forall at :: at in tables ==> Inside(ref, at, end)
        invariant ShortSegments(format, working, dirty - todo) && end == EndOf(format, working, dirty - todo)
        invariant InTurn(format, index.segments, working, dirty - todo)
        invariant InOrder(format, index.segments, working, dirty - todo, end)
        invariant forall key :: Written(old(index.segments), index.segments, tables, ref, dirty - todo, working, key)
      {
        hide InTurn, EndOf, InOrder;
        var key :| key in todo;
        var held := working[key];
        ghost var next, stored :=
          OneMoreWritten(old(index.segments), index.segments, tables, ref, dirty - todo, working, key,
                         SegmentAddress(ref, end, format.segment(held).envelope));
        assert dirty - (todo - {key}) == dirty - todo + {key};
        OneMoreEnvelope(format, working, dirty - todo, key);
        OneMoreInTurn(format, index.segments, working, dirty - todo, key, end, next);
        if held == map[] {
          index := index.(segments := index.segments - {key});
        } else {
          var encoded := format.segment(held);
          if encoded.message > MAXIMUM_SEGMENT_SIZE { return false, end; }
          assert encoded.Valid();
          var at := SegmentAddress(ref, end, encoded.envelope);
          var uses := Reads(held);
          tables := tables[at := held];
          end := end + encoded.envelope;
          index := index.(segments := index.segments[key := SegmentEntry(at, uses)]);
        }
        assert index.segments == next && tables == stored;
        todo := todo - {key};
      }
      assert dirty - todo == dirty;
    }

    /** The sealed root is one a reader accepts. */
    lemma SealedIsLegal(done: Built, end: nat)
      requires Configured() && done.Finished() && done.base.ref == ref && done.base.volumes == volumes
      requires done.parent == parent && done.base.vcpus == Processors()
      requires end <= MAXIMUM_INDEX_SIZE && forall at :: at in done.tables ==> Inside(ref, at, end)
      requires StateAt(done.Left(), done.Root()) == ExpectedState(store, parent, ref, state, dropState)
      ensures Legal(ids, done.Root())
    {
      hide WellFormed, Fresh, Built.Finished;
      assert forall at :: at in done.tables ==> AddressOk(at);
      var root := done.Root();
      RootWellFormed(done);
      assert root.state.Some? ==> ids(root.state.value.origin.vm) && root.state.value.origin.sequence != 0 by {
        if root.state.Some? { StateOrigin(done); }
      }
      RootIsLegal(ids, done);
    }

    /** A root's state was written by this checkpoint, or is the one its parent has. */
    lemma StateOrigin(done: Built)
      requires done.Finished() && done.Root().state.Some?
      requires StateAt(done.Left(), done.Root()) == ExpectedState(store, parent, ref, state, dropState)
      ensures var origin := done.Root().state.value.origin;
        origin == ref || (parent.Some? && parent.value.state.Some? && origin == parent.value.state.value.origin)
    {
      RootWellFormed(done);
    }

    // ----------------------------------------------------------------- commit

    /** The root before any phase: the parent's, at the new sizes. */
    method Start()
      requires Configured()
      modifies this`index, this`working, this`dirty, this`tables
      ensures Building(map[]) && working == map[] && dirty == {} && tables == map[]
      ensures index.checkpoints == if parent.Some? then parent.value.checkpoints else map[]
      ensures index.state == if parent.Some? && !dropState then parent.value.state else None
    {
      hide Inherited, Worked, WellFormed, Legal, LegalVolumes, Fresh, Differs;
      var root := Index(ref, volumes, Inherited(parent, volumes), map[], None, 0, false);
      if parent.Some? {
        root := root.(checkpoints := parent.value.checkpoints, state := parent.value.state,
                      vcpus := parent.value.vcpus, nested := parent.value.nested);
      }
      if vcpus != 0 { root := root.(vcpus := vcpus); }
      if nested.Some? { root := root.(nested := nested.value); }
      if dropState { root := root.(state := None); }
      index, working, dirty, tables := root, map[], {}, map[];
    }

    /** The state of the checkpoint: its own where it has one, and otherwise the parent's unless it is dropped. */
    method WriteState(writer: PartWriter) returns (ok: bool)
      requires Building(writer.members) && writer.Valid() && writer.ref == ref && writer.members == map[]
      requires !writer.open
      requires index.state == if parent.Some? && !dropState then parent.value.state else None
      modifies this`index, writer
      ensures Building(writer.members) && writer.Valid()
      ensures index == old(index).(state := index.state)
      ensures forall volume, page :: volume in volumes ==> Where(volume, page) == old(Where(volume, page))
      ensures ok ==> Stated(writer.members) && StateWritten(Asked(), writer.members, index.state)
      ensures |writer.members| <= if state.Some? then 1 else 0
      ensures old(writer.Bounded()) && (state.Some? ==> |state.value| <= MAXIMUM_STATE_SIZE) ==> writer.Bounded() && ok
    {
      hide Inherited, Worked, View, Geometry.SegmentOf, Geometry.OffsetIn, Differs, PartWriter.Valid;
      hide Legal, LegalVolumes, SegmentReadable;
      if state.Some? {
        var placed := writer.Submit(ref, state.value);
        BuildingGrows(map[], writer.members);
        if placed.None? { return false; }
        Reindex(index.(state := placed), writer.members);
        forall volume, page | volume in volumes ensures Where(volume, page) == old(Where(volume, page)) {
          var key := KeyOf(volumes[volume].geometry, volume, page);
          assert Segment(key) == old(Segment(key));
        }
      }
      return true;
    }

    /** The publication as a value, its segments not yet written. */
    ghost function Building0(members: map<MemberKey, Member>, rewriting: set<Ref>): Built
      reads this
    {
      Built(store, parent, index, working, dirty, members, rewriting, map[], map[], CheckpointCost(0, 0, 0))
    }

    /** What the phases up to compaction establish of the table. */
    ghost predicate TableBuilt(members: map<MemberKey, Member>, rewriting: set<Ref>,
                               edited: map<SegmentKey, Segment>, placed: map<MemberKey, Member>, source: Source)
      reads this
    {
      var b := Building0(members, rewriting);
      && b.Configured() && b.Tabled() && CameFrom(b, edited, placed, edits, source)
      && rewriting <= b.ParentNames().Keys
      && Stated(members) && (index.state.Some? ==> index.state.value.ref !in rewriting)
    }

    /** The state is sound and is what it must be. */
    ghost predicate Stated(members: map<MemberKey, Member>)
      reads this`index, this`state, this`dropState
    {
      && (index.state.Some? ==> Sound(store, parent, members, ref, index.state.value))
      && ExpectedState(store, parent, ref, state, dropState) ==
         if index.state.Some?
         then Some(Page(index.state.value.origin, DataAt(store, members, index.state.value)))
         else None
    }

    /** The phases before any edit. */
    method StartTable(writer: PartWriter) returns (ok: bool)
      requires Configured() && writer.Valid() && writer.ref == ref && writer.members == map[] && !writer.open
      modifies this`index, this`working, this`dirty, this`tables, writer
      ensures Building(writer.members) && writer.Valid() && tables == map[] && index.checkpoints == Asked().Names()
      ensures forall volume, page :: volume in volumes ==>
                Where(volume, page) == KeptAt(store, parent, volumes, volume, page)
      ensures ok ==>
                && Stated(writer.members) && StateWritten(Asked(), writer.members, index.state)
                && |writer.members| <= if state.Some? then 1 else 0
      ensures old(writer.Bounded()) && (state.Some? ==> |state.value| <= MAXIMUM_STATE_SIZE) ==> writer.Bounded() && ok
    {
      hide Inherited, Worked, WellFormed, Legal, LegalVolumes, Fresh, At, KeptAt, Differs, PartWriter.Valid;
      hide Stated, StateWritten;
      Start();
      Trim(writer.members);
      ok := WriteState(writer);
    }

    /** The phases up to compaction. */
    method EditTable(writer: PartWriter, source: Source) returns (failure: Option<Error>)
      requires Configured() && writer.Valid() && writer.ref == ref && writer.members == map[] && !writer.open
      requires Fills(source)
      requires forall page :: page in edits ==> page.volume in volumes && !volumes[page.volume].ephemeral
      modifies this`index, this`working, this`dirty, this`tables, writer
      ensures failure.None? ==>
                && writer.Valid() && tables == map[] && Building(writer.members) && index.checkpoints == Asked().Names()
                && Stated(writer.members) && StateWritten(Asked(), writer.members, index.state)
                && PagesWritten(Asked(), source, writer.members, index, working)
                && |writer.members| <= |edits| + if state.Some? then 1 else 0
      ensures old(writer.Bounded()) && (state.Some? ==> |state.value| <= MAXIMUM_STATE_SIZE) ==>
                writer.Bounded() && (failure.None? <==> forall page :: page in edits ==> CanEdit(volumes, source, page))
      ensures failure in {None, Some(InvalidRange), Some(SourceFailed)}
    {
      hide PartWriter.Valid;
      hide Inherited, Worked, WellFormed, Legal, LegalVolumes, Fresh, Sound, At, KeptAt, Edited, CanEdit, Differs;
      hide Stated, StateWritten, PagesWritten;
      hide Building;
      var ok := StartTable(writer);
      if !ok { return Some(InvalidRange); }
      BuildingIsBased(writer.members);
      ghost var stated := writer.members;
      failure := WriteEdits(writer, source);
      writer.Owns();
      if failure.None? {
        StatedGrows(stated, writer.members);
        EditsAreWritten(writer.members, source);
      }
    }

    lemma StatedGrows(before: map<MemberKey, Member>, after: map<MemberKey, Member>)
      requires Stated(before) && StateWritten(Asked(), before, index.state) && Grown(before, after)
      requires forall key :: key in after ==> key.ref == ref
      ensures Stated(after) && StateWritten(Asked(), after, index.state)
    {
      if index.state.Some? { SoundGrows(store, parent, before, after, ref, index.state.value); }
    }

    lemma EditsAreWritten(members: map<MemberKey, Member>, source: Source)
      requires index.volumes == volumes && Supported()
      requires forall page: PageKey :: page.volume in volumes ==>
                 if page in edits then Edited(volumes, source, members, ref, page, Where(page.volume, page.page))
                 else Where(page.volume, page.page) == KeptAt(store, parent, volumes, page.volume, page.page)
      ensures PagesWritten(Asked(), source, members, index, working)
    {
      hide Edited, KeptAt, At;
      forall page: PageKey | page.volume in volumes
        ensures PageWritten(Asked(), source, members, index, working, page)
      {
        assert Where(page.volume, page.page) == At(store, index, working, page.volume, page.page);
      }
    }

    /** What the table reads of each checkpoint, every segment opened, is what the request keeps of it. */
    lemma LiveIsAsked(members: map<MemberKey, Member>, source: Source)
      requires Building(members) && PagesWritten(Asked(), source, members, index, working)
      requires index.checkpoints == Asked().Names() && StateWritten(Asked(), members, index.state)
      ensures TrueLives() == Asked().LiveBytes()
    {
      hide Building, Differs, Worked, SumBytes, PagesWritten, View, Request.KeptIn;
      BuildingIsBased(members);
      var r := Asked();
      forall other | other in index.checkpoints ensures TrueLive(other) == r.LiveBytes()[other] {
        assert other != ref;
        NewSegmentsAddNothing(members, other);
        forall key | key in Addressed() ensures BytesIn(Addressed()[key], other) == BytesIn(r.Kept()[key], other) {
          SegmentsInPlace(members, key);
          ViewKept(r, source, members, index, working, key, other);
        }
        SumBytesSame(Addressed(), r.Kept(), other);
      }
    }

    lemma BuildingIsBased(members: map<MemberKey, Member>)
      requires Building(members)
      ensures Asked().Based() && index.volumes == volumes && index.ref == ref
      ensures index.segments == Inherited(parent, volumes) && (parent.Some? ==> ref !in parent.value.checkpoints)
    {
      hide Worked, Differs, WellFormed, Inherited;
    }

    lemma SegmentsInPlace(members: map<MemberKey, Member>, key: SegmentKey)
      requires Building(members)
      ensures forall relative :: relative in Segment(key) ==> InSegment(Asked(), key, relative)
    {
      hide Configured, Inherited, Sound, Differs, Fits;
      if key in working {
        assert Worked(store, parent, index, members, key, working[key], key in dirty);
      } else if key in index.segments {
        InheritedSound(members, key);
      }
    }

    /** No more pages move than the request keeps. */
    lemma MovingIsKept(members: map<MemberKey, Member>, source: Source, rewriting: set<Ref>)
      requires Building(members) && PagesWritten(Asked(), source, members, index, working) && Own(ref, rewriting)
      ensures Sum(MovingCounts(rewriting)) <= Sum(Sizes(Asked().Kept()))
    {
      hide Building, Differs, Worked, Sum, PagesWritten, View, Request.KeptIn;
      BuildingIsBased(members);
      var r := Asked();
      forall key | key in index.segments ensures |Moving(Segment(key), rewriting)| <= |r.KeptIn(key)| {
        SegmentsInPlace(members, key);
        ViewKept(r, source, members, index, working, key, ref.(sequence := ref.sequence + 1));
        SubsetSize(Moving(Segment(key), rewriting), r.KeptIn(key).Keys);
      }
      SumAtMost(MovingCounts(rewriting), Sizes(r.Kept()));
    }

    /** What a compaction leaves is the edited table, read under the entries as they were before. */
    lemma CompactedIsBuilt(placed: map<MemberKey, Member>, members: map<MemberKey, Member>, rewriting: set<Ref>,
                           before: Index, edited: map<SegmentKey, Segment>, source: Source)
      requires Building(members) && Grown(placed, members) && forall key :: key in members ==> key.ref == ref
      requires before.ref == ref && before.volumes == volumes
      requires before.checkpoints == Asked().Names()
      requires Own(ref, rewriting) && rewriting <= before.checkpoints.Keys
      requires Compacts(store, members, rewriting, before, edited, index, working)
      requires before.state.Some? ==> Sound(store, parent, placed, ref, before.state.value)
      requires ExpectedState(store, parent, ref, state, dropState) ==
               if before.state.Some?
               then Some(Page(before.state.value.origin, DataAt(store, placed, before.state.value)))
               else None
      requires PagesWritten(Asked(), source, placed, before, edited)
      ensures TableBuilt(members, rewriting, edited, placed, source)
    {
      hide Inherited, WellFormed, Legal, LegalVolumes, Fresh, Sound, View, At, KeptAt, Edited, Moved, MovedAt, Worked;
      hide Emptied, ExpectedState, DataAt, Differs;
      var b := Building0(members, rewriting);
      assert b.Configured() && b.Tabled();
      if index.state.Some? {
        MovedReadsSame(store, parent, placed, members, ref, rewriting, before.state.value, index.state.value);
      }
      forall page: PageKey | page.volume in volumes
        ensures PageEdited(b, At(store, before, edited, page.volume, page.page), placed, edits, source, page)
      {
        assert PageWritten(Asked(), source, placed, before, edited, page);
      }
      CompactedCameFrom(b, before, edited, placed, edits, source);
    }

    /** Compaction, over the edited table. */
    method CompactTable(writer: PartWriter, ghost source: Source)
      returns (failure: Option<Error>, ghost rewriting: set<Ref>, ghost edited: map<SegmentKey, Segment>,
               ghost placed: map<MemberKey, Member>)
      requires writer.Valid() && writer.ref == ref && Building(writer.members) && tables == map[]
      requires index.checkpoints == Asked().Names()
      requires Stated(writer.members) && StateWritten(Asked(), writer.members, index.state)
      requires PagesWritten(Asked(), source, writer.members, index, working)
      requires |writer.members| <= |edits| + if state.Some? then 1 else 0
      modifies this`index, this`working, this`dirty, writer
      ensures failure.None? ==>
                && writer.Valid() && Building(writer.members)
                && TableBuilt(writer.members, rewriting, edited, placed, source)
                && Lays(Asked(), source, writer.format, Building0(writer.members, rewriting))
      ensures old(writer.Bounded()) ==>
                && (failure.None? <==> parent.None? || protect <= store.roots.Keys)
                && (failure.None? && StateFits(Asked(), writer.format) ==> writer.Bounded())
      ensures failure in {None, Some(InvalidRange), Some(Unreadable)}
    {
      hide PartWriter.Valid;
      hide Inherited, WellFormed, Legal, LegalVolumes, Fresh, Sound, TrueLive, Worked, PagesWritten, Compacts;
      hide TableBuilt, Differs, Sum, Request.LiveBytes, Lays, Total, Deader, Packed, Building;
      hide Configured, ExpectedState, DataAt;
      edited, placed := working, writer.members;
      ghost var before := index;
      BuildingIsBased(writer.members);
      LiveIsAsked(writer.members, source);
      forall chosen | Own(ref, chosen) ensures Sum(MovingCounts(chosen)) <= Sum(Sizes(Asked().Kept())) {
        MovingIsKept(writer.members, source, chosen);
      }
      failure, rewriting := Compact(writer);
      if failure.Some? { return failure, rewriting, edited, placed; }
      writer.Owns();
      CompactedIsBuilt(placed, writer.members, rewriting, before, edited, source);
      BuiltIsLaid(writer.format, placed, writer.members, rewriting, before, edited, source);
    }

    lemma BuiltIsLaid(format: Format, placed: map<MemberKey, Member>, members: map<MemberKey, Member>,
                      rewriting: set<Ref>,
                      before: Index, edited: map<SegmentKey, Segment>, source: Source)
      requires Building(members) && Grown(placed, members) && before.ref == ref && Own(ref, rewriting)
      requires TableBuilt(members, rewriting, edited, placed, source)
      requires Compacts(store, members, rewriting, before, edited, index, working)
      requires StateWritten(Asked(), placed, before.state)
      requires Greedy(ref, Asked().Spared(), Asked().Names(), Asked().LiveBytes(), rewriting)
      requires Packed(format, ref, members) && |members| <= Asked().MemberBound()
      ensures Lays(Asked(), source, format, Building0(members, rewriting))
    {
      hide Configured, Inherited, Worked, Differs, Emptied, Moved, MovedAt, CameFrom, Packed, Greedy, Stated;
      hide Request.LiveBytes, Request.MemberBound, StateWritten, View;
      BuildingIsBased(members);
      var b := Building0(members, rewriting);
      StateIsLaid(Asked(), b, placed, before.state);
      BuiltLays(Asked(), source, format, b, edited, placed);
    }

    /** What a published root and the store it leaves are to the publication they came from. */
    ghost predicate Seals(source: Source, rewriting: set<Ref>, published: Published)
      reads this
    {
      && Committed(store, parent, volumes, ref, edits, source, published.index, published.store)
      && StateAt(published.store, published.index) == ExpectedState(store, parent, ref, state, dropState)
      && Legal(ids, published.index)
      && published.index.vcpus == Processors() && published.index.nested == Nests()
      && forall other :: other in rewriting ==>
           && other.vm == ref.vm && other != ref && other in published.index.checkpoints
           && published.index.checkpoints[other].emptied == ref.sequence
    }

    lemma SettledSeals(b: Built, done: Built, edited: map<SegmentKey, Segment>, placed: map<MemberKey, Member>,
                       source: Source, end: nat)
      requires Configured() && b.Configured() && b.Tabled() && CameFrom(b, edited, placed, edits, source)
      requires done == b.(tables := done.tables, segments := done.segments, cost := done.cost) && done.Settled()
      requires b.store == store && b.parent == parent && b.rewriting <= b.ParentNames().Keys
      requires b.base.ref == ref && b.base.volumes == volumes
      requires b.base.vcpus == Processors() && b.base.nested == Nests()
      requires ExpectedState(store, parent, ref, state, dropState) ==
               if b.base.state.Some?
               then Some(Page(b.base.state.value.origin, DataAt(store, b.members, b.base.state.value)))
               else None
      requires end <= MAXIMUM_INDEX_SIZE && forall at :: at in done.tables ==> Inside(ref, at, end)
      ensures Seals(source, b.rewriting, Published(done.Root(), done.Left()))
    {
      hide WellFormed, Legal, Fresh, CameFrom, Committed, Built.Finished, Built.Settled, Built.Configured, Built.Tabled;
      Finishes(b, done.tables, done.segments, done.cost, edited, placed, edits, source);
      FinishedIsCommitted(done, edited, placed, edits, source);
      RootState(done);
      SealedIsLegal(done, end);
      forall other | other in done.rewriting
        ensures other.vm == ref.vm && other != ref && other in done.Root().checkpoints
        ensures done.Root().checkpoints[other].emptied == ref.sequence
      {
        RewrittenAreEmptied(done, other);
      }
    }

    /** Finishes the parts and writes the changed segments. */
    method SettleTable(writer: PartWriter, ghost b: Built) returns (ok: bool, end: nat, ghost done: Built)
      requires writer.Valid() && writer.ref == ref && dirty <= working.Keys && tables == map[]
      requires b == Building0(writer.members, b.rewriting) && index.ref == ref
      requires index.state.Some? ==>
                 Sound(store, parent, writer.members, ref, index.state.value) && index.state.value.ref !in b.rewriting
      modifies this`index, this`tables, writer
      ensures ok <==> PartsFit(writer.format, writer.members) && ShortSegments(writer.format, working, dirty)
      ensures old(writer.Bounded()) ==> PartsFit(writer.format, writer.members)
      ensures writer.members == old(writer.members) && index == old(index).(segments := index.segments)
      ensures done == b.(tables := done.tables, segments := done.segments, cost := done.cost)
      ensures ok ==>
                && done.tables == tables && done.segments == index.segments
                && done.cost == CheckpointCost(writer.next, writer.bytes, 0) &&
                  end == EndOf(writer.format, working, dirty)
                && done.Settled() && WrittenOut(writer.format, done)
    {
      hide Sound, Written, ShortSegments, PartsFit, InTurn, EndOf, Laid, Within;
      done, end := b, 0;
      ok := writer.Finish();
      if ok {
        ok, end := WriteSegments(writer.format);
        done := b.(tables := tables, segments := index.segments, cost := CheckpointCost(writer.next, writer.bytes, 0));
        if ok { IsWrittenOut(writer, done, end); }
      }
    }

    lemma IsWrittenOut(writer: PartWriter, done: Built, end: nat)
      requires writer.Valid() && !writer.open && done.members == writer.members && writer.ref == done.base.ref == ref
      requires forall key :: key in writer.members ==>
                 key.part < writer.next && key.offset + writer.members[key].length <= MAXIMUM_PART_SIZE
      requires done.cost == CheckpointCost(writer.next, writer.bytes, 0)
      requires done.working == working && done.dirty == dirty && end == EndOf(writer.format, working, dirty)
      requires InTurn(writer.format, done.segments, working, dirty)
      requires forall at :: at in done.tables ==> Inside(ref, at, end)
      requires forall key :: Written(done.base.segments, done.segments, done.tables, ref, dirty, working, key)
      requires done.base.state.Some? ==>
                 && Sound(done.store, done.parent, done.members, ref, done.base.state.value)
                 && done.base.state.value.ref !in done.rewriting
      ensures done.Settled() && WrittenOut(writer.format, done)
    {
      hide Written, Sound, InTurn, EndOf, Format.Valid, PartBytes, Apart;
      forall key
        ensures Written(done.base.segments, done.segments, done.tables, done.base.ref, done.dirty, done.working, key)
      {
        assert Written(done.base.segments, done.segments, done.tables, ref, dirty, working, key);
      }
    }

    /** Finishes the parts, writes the changed segments and prunes the entries of the root. */
    method SealTable(writer: PartWriter, ghost rewriting: set<Ref>, ghost edited: map<SegmentKey, Segment>,
                     ghost placed: map<MemberKey, Member>, ghost source: Source)
      returns (published: Option<Published>, ghost done: Built)
      requires writer.Valid() && writer.ref == ref && Building(writer.members) && tables == map[]
      requires TableBuilt(writer.members, rewriting, edited, placed, source)
      modifies this`index, this`tables, writer
      ensures published.Some? <==> Fitted(writer.format, done)
      ensures old(writer.Bounded()) ==> PartsFit(writer.format, done.members)
      ensures PartsFit(writer.format, done.members) && ShortSegments(writer.format, done.working, done.dirty) ==>
                WrittenOut(writer.format, done)
      ensures var b := old(Building0(writer.members, rewriting));
                done == b.(tables := done.tables, segments := done.segments, cost := done.cost)
      ensures published.Some? ==>
                && index == done.Root() && published.value == Published(done.Root(), done.Left())
                && Seals(source, rewriting, published.value)
    {
      hide Inherited, Worked, CameFrom, ShortSegments, Seals, Retained, Sound, PartsFit, EndOf, Differs;
      hide ExpectedState, StateAt, Configured, DataAt, Built.Configured, Built.Tabled, Built.Settled, WrittenOut;
      ghost var b := Building0(writer.members, rewriting);
      var ok, end;
      ok, end, done := SettleTable(writer, b);
      if !ok { return None, done; }
      var cost := CheckpointCost(writer.next, writer.bytes, 0);
      index := index.(checkpoints := index.checkpoints[ref := cost]);
      index := index.(checkpoints := Retained(index));
      assert index == done.Root();
      if !RootFits(writer.format, index, end) { return None, done; }
      var left := Store(store.tables + tables, store.parts + writer.members, store.roots[ref := index]);
      WrittenInside(writer.format, done);
      SettledSeals(b, done, edited, placed, source, end);
      return Some(Published(index, left)), done;
    }

    /** What Commit needs of its arguments, whatever their sizes: known volumes, edits inside them that the source can
        read, and protected roots that can be read. */
    ghost predicate CanCommit(source: Source, format: Format)
      requires Supported()
      reads this
    {
      && err.None? && format.partBytes <= PART_TARGET
      && (forall page :: page in edits ==>
            page.volume in volumes && !volumes[page.volume].ephemeral && CanEdit(volumes, source, page))
      && (parent.Some? ==> protect <= store.roots.Keys)
      && (state.Some? ==> |state.value| <= MAXIMUM_STATE_SIZE)
    }

    /** Commit publishes the checkpoint: inherit, trim, state, edits, compaction, parts, segments, root. */
    method Commit(source: Source, format: Format) returns (result: Result<Published>, ghost built: Built)
      requires Settable() && Fills(source) && format.Valid()
      modifies this`index, this`working, this`dirty, this`tables
      ensures err.Some? ==> result == Err(err.value)
      // What was built is what the request comes to, and succeeds exactly when it is within its bounds.
      ensures CanCommit(source, format) ==>
                && Lays(Asked(), source, format, built) && (result.Ok? <==> Fitted(format, built))
                && (PartsFit(format, built.members) && ShortSegments(format, built.working, built.dirty) ==>
                      WrittenOut(format, built))
                && working == built.working && dirty == built.dirty
      ensures result.Ok? ==> index == built.Root() && result.value == Published(built.Root(), built.Left())
      // Only a state past the slack can take a part past its bound, and a request all of whose outcomes are within
      // their bounds succeeds.
      ensures CanCommit(source, format) && StateFits(Asked(), format) ==> PartsFit(format, built.members)
      ensures CanCommit(source, format) && Small(Asked(), source, format) ==> result.Ok?
      ensures err.None? ==> (result == Err(UnknownVolume) <==> exists page :: page in edits && page.volume !in volumes)
      ensures err.None? && (forall page :: page in edits ==> page.volume in volumes) ==>
                (result == Err(EphemeralVolume) <==> exists page :: page in edits && volumes[page.volume].ephemeral)
      ensures result.Ok? ==>
                && (forall page :: page in edits ==> page.volume in volumes && !volumes[page.volume].ephemeral)
                && Committed(store, parent, volumes, ref, edits, source, result.value.index, result.value.store)
                && StateAt(result.value.store, result.value.index) ==
                  ExpectedState(store, parent, ref, state, dropState)
                && Legal(ids, result.value.index)
                && result.value.index.vcpus == Processors() && result.value.index.nested == Nests()
                && (forall other :: other in built.rewriting ==>
                      && other.vm == ref.vm && other != ref
                      && other in result.value.index.checkpoints
                      && result.value.index.checkpoints[other].emptied == ref.sequence)
    {
      hide Committed, CanEdit, Legal, LegalVolumes, WellFormed, Fresh, Lays, Fitted, Small, WrittenOut, StateFits;
      built := Building0(map[], {});
      if err.Some? { return Err(err.value), built; }
      if exists page :: page in edits && page.volume !in volumes { return Err(UnknownVolume), built; }
      if exists page :: page in edits && volumes[page.volume].ephemeral { return Err(EphemeralVolume), built; }
      result, built := Write(source, format);
    }

    /** The phases of a commit whose edits are of volumes it may edit. */
    method Write(source: Source, format: Format) returns (result: Result<Published>, ghost built: Built)
      requires Configured() && Settable() && Supported() && err.None? && Fills(source) && format.Valid()
      requires forall page :: page in edits ==> page.volume in volumes && !volumes[page.volume].ephemeral
      modifies this`index, this`working, this`dirty, this`tables
      ensures CanCommit(source, format) ==>
                && Lays(Asked(), source, format, built) && (result.Ok? <==> Fitted(format, built))
                && (PartsFit(format, built.members) && ShortSegments(format, built.working, built.dirty) ==>
                      WrittenOut(format, built))
                && working == built.working && dirty == built.dirty
                && (StateFits(Asked(), format) ==> PartsFit(format, built.members))
                && (Small(Asked(), source, format) ==> result.Ok?)
      ensures result.Err? ==> result.error in {InvalidRange, SourceFailed, Unreadable}
      ensures result.Ok? ==>
                && index == built.Root() && result.value == Published(built.Root(), built.Left())
                && Seals(source, built.rewriting, result.value)
    {
      hide PartWriter.Valid;
      hide Seals, Committed, Inherited, WellFormed, Legal, LegalVolumes, Fresh, CanEdit, Worked, Stated, TableBuilt;
      hide ShortSegments, PagesWritten, PartsFit, WrittenOut, Lays, StateWritten, Small, Differs, StateFits, Fitted;
      hide StateAt, ExpectedState, Settable, Configured, Building;
      built := Building0(map[], {});
      var writer := new PartWriter(ref, format);
      var failure := EditTable(writer, source);
      if failure.Some? { return Err(failure.value), built; }
      ghost var rewriting, edited, placed;
      failure, rewriting, edited, placed := CompactTable(writer, source);
      if failure.Some? { return Err(failure.value), built; }
      ghost var before := Building0(writer.members, rewriting);
      BuildingIsBased(writer.members);
      var published;
      published, built := SealTable(writer, rewriting, edited, placed, source);
      LaysStill(Asked(), source, format, before, built);
      if CanCommit(source, format) && Small(Asked(), source, format) {
        SmallStateFits(Asked(), source, format);
        SmallSucceeds(Asked(), source, format, built);
      }
      if published.None? { return Err(InvalidRange), built; }
      return Ok(published.value), built;
    }
  }
}
