/** Whole runs of mirror updates, accepted and refused in any order: history only grows,
    and the overwriting mirror does what the replacing one does. */
module MirrorRuns {
  import opened Wrappers
  import opened Schema
  import opened Snapshots
  import opened Mirrors

  /** Where a mirror stands, and the snapshots it has accepted so far. */
  datatype Course = Course(disk: Disk, accepted: seq<Snapshot>)

  const START := Course(Disk(map[], None), [])

  ghost function LocalStep(h: Hash, w: Course, s: Snapshot): Course
  {
    Course(LocalNext(h, w.disk, s), if LocalAccepts(h, w.disk, s) then w.accepted + [s] else w.accepted)
  }

  ghost function CloudStep(h: Hash, source: string, w: Course, s: Snapshot): Course
  {
    Course(CloudNext(h, source, w.disk, s), if CloudAccepts(h, source, w.disk, s) then w.accepted + [s] else w.accepted)
  }

  /** A new mirror offered these snapshots one after another. */
  ghost function LocalRun(h: Hash, offered: seq<Snapshot>): Course
  {
    if offered == [] then START
    else LocalStep(h, LocalRun(h, offered[..|offered| - 1]), offered[|offered| - 1])
  }

  ghost function CloudRun(h: Hash, source: string, offered: seq<Snapshot>): Course
  {
    if offered == [] then START
    else CloudStep(h, source, CloudRun(h, source, offered[..|offered| - 1]), offered[|offered| - 1])
  }

  // ----- The mirror extends everything it accepted -----

  /** `top` is accepted and extends all of these accepted snapshots. */
  ghost predicate Tops(h: Hash, top: Snapshot, accepted: seq<Snapshot>)
  {
    forall a | a in accepted :: ExtendedBy(h, a, top)
  }

  ghost predicate ExtendedBy(h: Hash, a: Snapshot, top: Snapshot)
  {
    Valid(h, a) && Valid(h, top) && Extends(a, top)
  }

  ghost predicate OnlyGrew(h: Hash, w: Course)
  {
    && Filed(w.disk.tables)
    && if w.accepted == [] then Blank(w.disk)
       else exists top :: Stores(h, w.disk, top) && Tops(h, top, w.accepted)
  }

  /** Extending is transitive along accepted snapshots. */
  lemma TopsAgain(h: Hash, top: Snapshot, next: Snapshot, accepted: seq<Snapshot>)
    requires Tops(h, top, accepted) && ExtendedBy(h, top, next)
    ensures Tops(h, next, accepted)
  {
    forall a | a in accepted ensures ExtendedBy(h, a, next) {
      assert ExtendedBy(h, a, top);
      ExtendsTransitive(h, a, top, next);
    }
  }

  lemma CanonicalExtends(h: Hash, s: Snapshot)
    requires Valid(h, s)
    ensures ExtendedBy(h, s, Canonical(h, s))
  {
    CanonicalIsValid(h, s);
    SameRowsExtend(Indexed(s.records));
  }

  lemma SameRowsExtend(db: Rows)
    ensures RowsExtend(db, db)
  {
  }

  lemma FollowsStored(h: Hash, disk: Disk, top: Snapshot, s: Snapshot)
    requires Stores(h, disk, top) && Follows(h, disk, s)
    ensures ExtendedBy(h, top, s)
  {
    FollowsWhatWasRead(h, disk, Some(top), s);
  }

  lemma TopsOneMore(h: Hash, top: Snapshot, accepted: seq<Snapshot>, s: Snapshot)
    requires Tops(h, top, accepted) && ExtendedBy(h, s, top)
    ensures Tops(h, top, accepted + [s])
  {
  }

  lemma AcceptedTops(h: Hash, w: Course, s: Snapshot)
    requires OnlyGrew(h, w) && LocalAccepts(h, w.disk, s)
    ensures Tops(h, Canonical(h, s), w.accepted + [s])
  {
    var next := Canonical(h, s);
    if w.accepted != [] {
      var top :| Stores(h, w.disk, top) && Tops(h, top, w.accepted);
      FollowsStored(h, w.disk, top, next);
      TopsAgain(h, top, next, w.accepted);
    }
    CanonicalExtends(h, s);
    TopsOneMore(h, next, w.accepted, s);
  }

  lemma StepGrows(h: Hash, w: Course, s: Snapshot)
    requires OnlyGrew(h, w)
    ensures OnlyGrew(h, LocalStep(h, w, s))
  {
    if LocalAccepts(h, w.disk, s) {
      AcceptedTops(h, w, s);
      HoldingStores(h, s);
      FilingShows(Indexed(s.records));
    }
  }

  /** After any run of accepted and refused updates the local mirror holds a snapshot that
      extends every snapshot it ever accepted, or nothing if it accepted none. */
  lemma {:induction false} LocalMirrorOnlyGrows(h: Hash, offered: seq<Snapshot>)
    ensures OnlyGrew(h, LocalRun(h, offered))
  {
    if offered != [] {
      LocalMirrorOnlyGrows(h, offered[..|offered| - 1]);
      StepGrows(h, LocalRun(h, offered[..|offered| - 1]), offered[|offered| - 1]);
    }
  }

  /** Every accepted ledger is a prefix of the mirror's, with the same running balances. */
  lemma EveryLedgerIsPrefix(h: Hash, offered: seq<Snapshot>, a: Snapshot)
    requires a in LocalRun(h, offered).accepted
    ensures DistinctKeys(a.records)
    ensures exists top :: Stores(h, LocalRun(h, offered).disk, top) && LedgerOf(Indexed(a.records)) <= LedgerOf(Indexed(top.records))
  {
    LocalMirrorOnlyGrows(h, offered);
    var w := LocalRun(h, offered);
    var top :| Stores(h, w.disk, top) && Tops(h, top, w.accepted);
    assert ExtendedBy(h, a, top);
    OldLedgerIsPrefix(h, a, top);
  }

  // ----- The cloud mirror refines the local one -----

  /** A snapshot follows what is stored whichever way its rows are ordered. */
  lemma OrderDoesNotMatter(h: Hash, disk: Disk, s: Snapshot)
    requires Valid(h, s)
    ensures Follows(h, disk, s) <==> Follows(h, disk, Canonical(h, s))
  {
    CanonicalIsValid(h, s);
    forall found ensures MayFollow(h, found, s) <==> MayFollow(h, found, Canonical(h, s)) {
      SameFollowing(h, found, s);
    }
  }

  lemma SameFollowing(h: Hash, found: Option<Snapshot>, s: Snapshot)
    requires Valid(h, s)
    ensures MayFollow(h, found, s) <==> MayFollow(h, found, Canonical(h, s))
  {
    CanonicalIsValid(h, s);
  }

  /** Over rows that are in their slots, the cloud mirror accepts what the local one accepts,
      provided the snapshot is of its source and was sealed in capture order. */
  lemma CloudAcceptsWhatLocalDoes(h: Hash, source: string, disk: Disk, s: Snapshot)
    requires Filed(disk.tables)
    ensures CloudAccepts(h, source, disk, s) <==>
      LocalAccepts(h, disk, s) && s.source == source && SealedInOrder(h, s)
  {
    if Valid(h, s) {
      OrderDoesNotMatter(h, disk, s);
    }
  }

  /** The offered snapshots that are of this source and sealed in capture order. */
  ghost function Fitting(h: Hash, source: string, offered: seq<Snapshot>): seq<Snapshot>
  {
    if offered == [] then []
    else
      var s := offered[|offered| - 1];
      Fitting(h, source, offered[..|offered| - 1]) + (if Fits(h, source, s) then [s] else [])
  }

  ghost predicate Fits(h: Hash, source: string, s: Snapshot)
  {
    DistinctKeys(s.records) && s.source == source && SealedInOrder(h, s)
  }

  lemma StepsAgree(h: Hash, source: string, w: Course, s: Snapshot)
    requires Filed(w.disk.tables)
    ensures CloudStep(h, source, w, s) == if Fits(h, source, s) then LocalStep(h, w, s) else w
  {
    CloudAcceptsWhatLocalDoes(h, source, w.disk, s);
  }

  /** Whatever is offered, the overwriting cloud mirror ends up row for row where the
      replacing local mirror ends up on the fitting snapshots. */
  lemma {:induction false} CloudRefinesLocal(h: Hash, source: string, offered: seq<Snapshot>)
    ensures CloudRun(h, source, offered) == LocalRun(h, Fitting(h, source, offered))
  {
    if offered != [] {
      var before, s := offered[..|offered| - 1], offered[|offered| - 1];
      CloudRefinesLocal(h, source, before);
      LocalMirrorOnlyGrows(h, Fitting(h, source, before));
      StepsAgree(h, source, CloudRun(h, source, before), s);
      if Fits(h, source, s) {
        assert Fitting(h, source, offered)[..|Fitting(h, source, before)|] == Fitting(h, source, before);
      } else {
        assert Fitting(h, source, offered) == Fitting(h, source, before);
      }
    }
  }

  /** So the cloud mirror only grows too. */
  lemma CloudMirrorOnlyGrows(h: Hash, source: string, offered: seq<Snapshot>)
    ensures OnlyGrew(h, CloudRun(h, source, offered))
  {
    CloudRefinesLocal(h, source, offered);
    LocalMirrorOnlyGrows(h, Fitting(h, source, offered));
  }
}
