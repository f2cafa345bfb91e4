/** The snapshot checker's view of the membership tree: it compares printed numbers as texts,
    rebuilds every member's row history and walks every current chain, independently of how the
    tree was changed. */
module TreeCheck {
  import opened Wrappers
  import opened TreeNumbers
  import opened Forest
  import opened Referrals

  /** A row as a snapshot holds it: its number is any text, its depth any number. */
  datatype TextRow = TextRow(inviter: Option<Member>, root: Member, number: string, depth: int, branch: nat)

  type TextLinks = map<Member, TextRow>

  datatype TextRevision = TextRevision(member: Member, link: TextRow, request: Request, linked: Member)

  type Histories = map<Member, seq<TextRow>>

  // ----- What the checker demands -----

  /** The row in force: the newest revision of the member, else the original one. */
  ghost function TextLatest(original: TextRow, revisions: seq<TextRevision>, m: Member): TextRow
  {
    if revisions == [] then original
    else
      var last := revisions[|revisions| - 1];
      if last.member == m then last.link else TextLatest(original, revisions[..|revisions| - 1], m)
  }

  ghost function TextGraph(originals: TextLinks, revisions: seq<TextRevision>): TextLinks
  {
    map m | m in originals :: TextLatest(originals[m], revisions, m)
  }

  ghost function TextWritten(revisions: seq<TextRevision>): set<(Member, TextRow)>
  {
    set j | 0 <= j < |revisions| :: (revisions[j].member, revisions[j].link)
  }

  ghost function TextRecorded(originals: TextLinks, revisions: seq<TextRevision>): set<(Member, TextRow)>
  {
    (set m | m in originals :: (m, originals[m])) + TextWritten(revisions)
  }

  ghost predicate TextRefers(originals: TextLinks, x: Member, r: TextRow)
  {
    r.root in originals && (r.inviter.Some? ==> r.inviter.value in originals)
  }

  /** Rows name members of the tree only. */
  ghost predicate TextReferences(originals: TextLinks, revisions: seq<TextRevision>)
  {
    && (forall j | 0 <= j < |revisions| :: revisions[j].member in originals)
    && (forall x, r {:trigger TextRefers(originals, x, r)} | (x, r) in TextRecorded(originals, revisions) :: TextRefers(originals, x, r))
  }

  /** Row r fits directly below row p, comparing texts. */
  predicate FitsBelow(r: TextRow, p: TextRow)
  {
    r.root == p.root && r.depth == p.depth + 1 && r.number == Child(p.number, r.branch)
  }

  predicate IsRoot(m: Member, r: TextRow) { r.root == m && r.depth == 0 && r.number == Pad(r.branch) }

  /** The row is a proper root, or some row of its inviter fits above it. */
  ghost predicate TextSupported(rows: set<(Member, TextRow)>, m: Member, r: TextRow)
  {
    match r.inviter
    case None => IsRoot(m, r)
    case Some(i) => i != m && exists p {:trigger FitsBelow(r, p)} :: (i, p) in rows && FitsBelow(r, p)
  }

  ghost predicate TextClosed(rows: set<(Member, TextRow)>)
  {
    forall m, r {:trigger TextSupported(rows, m, r)} | (m, r) in rows :: TextSupported(rows, m, r)
  }

  ghost predicate DistinctNumbers(links: TextLinks)
  {
    forall j, k | j in links && k in links && links[j].number == links[k].number :: j == k
  }

  ghost predicate TextConsistent(links: TextLinks, k: Member)
    requires k in links && links[k].inviter.Some?
  {
    links[k].inviter.value in links && FitsBelow(links[k], links[links[k].inviter.value])
  }

  ghost predicate TextAligned(links: TextLinks)
  {
    forall k {:trigger TextConsistent(links, k)} | k in links && links[k].inviter.Some? :: TextConsistent(links, k)
  }

  ghost predicate TextChecked(originals: TextLinks, revisions: seq<TextRevision>)
  {
    && TextReferences(originals, revisions)
    && DistinctNumbers(originals)
    && TextClosed(TextRecorded(originals, revisions))
    && DistinctNumbers(TextGraph(originals, revisions))
    && TextAligned(TextGraph(originals, revisions))
  }

  // ----- The checker -----

  /** The row is a proper root, or some recorded row of its inviter fits above it. */
  predicate RowFits(histories: Histories, m: Member, r: TextRow)
  {
    match r.inviter
    case None => IsRoot(m, r)
    case Some(i) => i != m && i in histories && exists p | p in histories[i] :: FitsBelow(r, p)
  }

  /** `histories` lists every member's recorded rows, the row in force last. */
  ghost predicate Lists(histories: Histories, originals: TextLinks, revisions: seq<TextRevision>)
  {
    && histories.Keys == originals.Keys
    && (forall m, r | m in histories :: r in histories[m] <==> (m, r) in TextRecorded(originals, revisions))
    && (forall m | m in histories ::
          histories[m] != [] && histories[m][|histories[m]| - 1] == TextLatest(originals[m], revisions, m))
  }

  lemma ListsNothing(originals: TextLinks)
    ensures Lists(map m | m in originals :: [originals[m]], originals, [])
  {
  }

  lemma TextWrittenGrows(revisions: seq<TextRevision>, row: TextRevision)
    ensures TextWritten(revisions + [row]) == TextWritten(revisions) + {(row.member, row.link)}
  {
    var all := revisions + [row];
    assert all[|revisions|] == row;
    assert forall j | 0 <= j < |revisions| :: all[j] == revisions[j];
  }

  lemma ListsOneMore(histories: Histories, originals: TextLinks, revisions: seq<TextRevision>, row: TextRevision)
    requires Lists(histories, originals, revisions) && row.member in originals
    ensures Lists(histories[row.member := histories[row.member] + [row.link]], originals, revisions + [row])
  {
    var after := histories[row.member := histories[row.member] + [row.link]];
    TextWrittenGrows(revisions, row);
    assert [row][0] == row && (row.member, row.link) in TextWritten([row]);
    assert (revisions + [row])[..|revisions|] == revisions;
    forall m, r | m in after
      ensures r in after[m] <==> (m, r) in TextRecorded(originals, revisions + [row])
    {
      assert r in after[m] <==> r in histories[m] || (m == row.member && r == row.link);
    }
  }

  lemma ListsNext(histories: Histories, originals: TextLinks, revisions: seq<TextRevision>, j: nat)
    requires j < |revisions| && Lists(histories, originals, revisions[..j]) && revisions[j].member in originals
    ensures revisions[j].member in histories
    ensures Lists(histories[revisions[j].member := histories[revisions[j].member] + [revisions[j].link]], originals, revisions[..j + 1])
  {
    ListsOneMore(histories, originals, revisions[..j], revisions[j]);
    assert revisions[..j] + [revisions[j]] == revisions[..j + 1];
  }

  /** Each member's rows, oldest first. */
  method BuildHistories(originals: TextLinks, revisions: seq<TextRevision>) returns (histories: Histories)
    requires forall j | 0 <= j < |revisions| :: revisions[j].member in originals
    ensures Lists(histories, originals, revisions)
  {
    histories := map m | m in originals :: [originals[m]];
    ListsNothing(originals);
    var j := 0;
    assert revisions[..j] == [];
    while j < |revisions|
      invariant 0 <= j <= |revisions| && Lists(histories, originals, revisions[..j])
    {
      var row := revisions[j];
      ListsNext(histories, originals, revisions, j);
      histories := histories[row.member := histories[row.member] + [row.link]];
      j := j + 1;
    }
    assert revisions[..j] == revisions;
  }

  /** Climbs from m, comparing every row with the row above it and refusing a repeated member. */
  method Walk(current: TextLinks, m: Member) returns (ok: bool)
    requires m in current
    requires forall k | k in current && current[k].inviter.Some? :: current[k].inviter.value in current
    ensures ok && current[m].inviter.Some? ==> TextConsistent(current, m)
    ensures !ok ==> !TextAligned(current)
  {
    var at, seen := m, {m};
    while current[at].inviter.Some?
      invariant at in current && m in seen && at in seen
      invariant forall k | k in seen :: k in current && current[k].depth >= current[at].depth
      invariant at != m ==> current[m].inviter.Some? && TextConsistent(current, m)
      decreases current.Keys - seen
    {
      var row, parent := current[at], current[at].inviter.value;
      if parent in seen {
        assert !TextConsistent(current, at);
        return false;
      }
      var above := current[parent];
      if row.root != above.root || row.depth != above.depth + 1 || row.number != Child(above.number, row.branch) {
        assert !TextConsistent(current, at);
        return false;
      }
      seen := seen + {parent};
      at := parent;
    }
    return true;
  }

  /** The numbers held by some members. */
  function RowNumbers(links: TextLinks, members: set<Member>): set<string>
    requires members <= links.Keys
  {
    set k | k in members :: links[k].number
  }

  ghost predicate DistinctAmong(links: TextLinks, members: set<Member>)
    requires members <= links.Keys
  {
    forall j, k | j in members && k in members && links[j].number == links[k].number :: j == k
  }

  /** Counting the numbers tells whether one is held twice. */
  lemma {:induction false} CountingFindsDuplicates(links: TextLinks, members: set<Member>)
    requires members <= links.Keys
    ensures |RowNumbers(links, members)| <= |members|
    ensures |RowNumbers(links, members)| == |members| <==> DistinctAmong(links, members)
    decreases members
  {
    if members != {} {
      var x :| x in members;
      var rest := members - {x};
      CountingFindsDuplicates(links, rest);
      assert RowNumbers(links, members) == RowNumbers(links, rest) + {links[x].number};
      if links[x].number in RowNumbers(links, rest) {
        assert RowNumbers(links, members) == RowNumbers(links, rest);
        var y :| y in rest && links[y].number == links[x].number;
      } else {
        assert forall k | k in rest :: links[k].number in RowNumbers(links, rest);
      }
    }
  }

  /** Whether all rows of all members are valid, which is when every row is supported. */
  method CheckRows(histories: Histories, originals: TextLinks, revisions: seq<TextRevision>) returns (ok: bool)
    requires Lists(histories, originals, revisions) && TextReferences(originals, revisions)
    ensures ok <==> TextClosed(TextRecorded(originals, revisions))
  {
    ok := forall m | m in histories :: forall r | r in histories[m] :: RowFits(histories, m, r);
    forall m, r | m in histories && r in histories[m]
      ensures RowFits(histories, m, r) <==> TextSupported(TextRecorded(originals, revisions), m, r)
    {
      FitMeansSupported(histories, originals, revisions, m, r);
    }
    assert forall m, r | (m, r) in TextRecorded(originals, revisions) :: m in histories;
  }

  lemma FitMeansSupported(histories: Histories, originals: TextLinks, revisions: seq<TextRevision>, m: Member, r: TextRow)
    requires Lists(histories, originals, revisions) && TextReferences(originals, revisions)
    requires m in histories && r in histories[m]
    ensures RowFits(histories, m, r) <==> TextSupported(TextRecorded(originals, revisions), m, r)
  {
  }

  lemma CountsAreDistinct(links: TextLinks)
    ensures |RowNumbers(links, links.Keys)| == |links| <==> DistinctNumbers(links)
  {
    CountingFindsDuplicates(links, links.Keys);
  }

  /** Whether the rows in force have different numbers and every climb goes through. */
  method CheckCurrent(histories: Histories, originals: TextLinks, revisions: seq<TextRevision>) returns (ok: bool)
    requires Lists(histories, originals, revisions) && TextReferences(originals, revisions)
    ensures ok <==> DistinctNumbers(TextGraph(originals, revisions)) && TextAligned(TextGraph(originals, revisions))
  {
    var current: TextLinks := map m | m in histories :: histories[m][|histories[m]| - 1];
    LastIsCurrent(histories, originals, revisions);
    CountsAreDistinct(current);
    if |RowNumbers(current, current.Keys)| != |current| { return false; }
    CurrentRefers(originals, revisions);
    ok := WalkAll(current);
  }

  /** The checker accepts exactly the tables that satisfy every demand on the tree. */
  method CheckTree(originals: TextLinks, revisions: seq<TextRevision>) returns (ok: bool)
    requires TextReferences(originals, revisions)
    ensures ok <==> TextChecked(originals, revisions)
  {
    CountsAreDistinct(originals);
    if |RowNumbers(originals, originals.Keys)| != |originals| { return false; }
    var histories := BuildHistories(originals, revisions);
    var fine := CheckRows(histories, originals, revisions);
    if !fine { return false; }
    ok := CheckCurrent(histories, originals, revisions);
  }

  lemma LastIsCurrent(histories: Histories, originals: TextLinks, revisions: seq<TextRevision>)
    requires Lists(histories, originals, revisions)
    ensures (map m | m in histories :: histories[m][|histories[m]| - 1]) == TextGraph(originals, revisions)
  {
  }

  method WalkAll(current: TextLinks) returns (ok: bool)
    requires forall k | k in current && current[k].inviter.Some? :: current[k].inviter.value in current
    ensures ok <==> TextAligned(current)
  {
    var rest := current.Keys;
    while rest != {}
      invariant rest <= current.Keys
      invariant forall k | k in current && k !in rest && current[k].inviter.Some? :: TextConsistent(current, k)
    {
      var k :| k in rest;
      var fine := Walk(current, k);
      if !fine { return false; }
      rest := rest - {k};
    }
    return true;
  }

  lemma {:induction false} TextLatestIsRecorded(originals: TextLinks, revisions: seq<TextRevision>, m: Member)
    requires m in originals
    ensures (m, TextLatest(originals[m], revisions, m)) in TextRecorded(originals, revisions)
  {
    if revisions != [] {
      var before, last := revisions[..|revisions| - 1], revisions[|revisions| - 1];
      TextLatestIsRecorded(originals, before, m);
      TextWrittenGrows(before, last);
      assert before + [last] == revisions;
    }
  }

  lemma CurrentRefers(originals: TextLinks, revisions: seq<TextRevision>)
    requires TextReferences(originals, revisions)
    ensures var current := TextGraph(originals, revisions);
      forall k | k in current && current[k].inviter.Some? :: current[k].inviter.value in current
  {
    var current := TextGraph(originals, revisions);
    forall k | k in current
      ensures current[k].inviter.Some? ==> current[k].inviter.value in current
    {
      TextLatestIsRecorded(originals, revisions, k);
      assert TextRefers(originals, k, current[k]);
    }
  }

  // ----- Printed numbers -----

  function Printed(link: Link): TextRow
  {
    TextRow(link.inviter, link.root, Text(link.place), link.depth, link.branch)
  }

  ghost function Shallower(rows: set<(Member, TextRow)>, depth: int): set<(Member, TextRow)>
  {
    set row | row in rows && row.1.depth < depth
  }

  /** Whatever texts a snapshot holds, if every row is supported then every number is the
      printed number of a place, at the depth the row says. */
  lemma {:induction false} SupportedNumbersArePlaces(rows: set<(Member, TextRow)>, m: Member, r: TextRow)
    requires TextClosed(rows) && (m, r) in rows
    ensures exists link :: Printed(link) == r && Depth(link.place) == r.depth
    decreases Shallower(rows, r.depth)
  {
    assert TextSupported(rows, m, r);
    match r.inviter
    case None =>
      assert Printed(Link(None, r.root, Top(r.branch), 0, r.branch)) == r;
    case Some(i) =>
      var p :| (i, p) in rows && FitsBelow(r, p);
      assert (i, p) in Shallower(rows, r.depth) && (i, p) !in Shallower(rows, p.depth);
      SupportedNumbersArePlaces(rows, i, p);
      var above :| Printed(above) == p && Depth(above.place) == p.depth;
      var place := Below(above.place, r.branch);
      assert Printed(Link(r.inviter, r.root, place, above.depth + 1, r.branch)) == r;
  }

  lemma PrintedFitsBelow(r: Link, p: Link)
    ensures FitsBelow(Printed(r), Printed(p)) <==> r.root == p.root && r.depth == p.depth + 1 && r.place == Below(p.place, r.branch)
  {
    if Text(r.place) == Child(Text(p.place), r.branch) {
      TextInjective(r.place, Below(p.place, r.branch));
    }
  }

  /** Checking the printed rows is checking the places. */
  lemma PrintedSupport(rows: set<(Member, Link)>, m: Member, r: Link)
    ensures TextSupported(set row | row in rows :: (row.0, Printed(row.1)), m, Printed(r)) <==> Supported(rows, m, r)
  {
    var texts := set row | row in rows :: (row.0, Printed(row.1));
    match r.inviter
    case None =>
      if Text(r.place) == Pad(r.branch) { TextInjective(r.place, Top(r.branch)); }
    case Some(i) =>
      if TextSupported(texts, m, Printed(r)) {
        var t :| (i, t) in texts && FitsBelow(Printed(r), t);
        var row :| row in rows && (row.0, Printed(row.1)) == (i, t);
        PrintedFitsBelow(r, row.1);
        assert (i, row.1) in rows;
      }
      if Supported(rows, m, r) {
        var p :| (i, p) in rows && r.root == p.root && r.depth == p.depth + 1 && r.place == Below(p.place, r.branch);
        PrintedFitsBelow(r, p);
        assert (i, Printed(p)) in texts;
      }
  }

  /** So the check on texts accepts exactly the printed forms of rows the check on places accepts. */
  lemma TextCheckIsPlaceCheck(rows: set<(Member, Link)>)
    ensures TextClosed(set row | row in rows :: (row.0, Printed(row.1))) <==> ParentClosed(rows)
  {
    var texts := set row | row in rows :: (row.0, Printed(row.1));
    forall row | row in rows ensures TextSupported(texts, row.0, Printed(row.1)) <==> Supported(rows, row.0, row.1) {
      PrintedSupport(rows, row.0, row.1);
    }
    if TextClosed(texts) {
      forall row | row in rows ensures Supported(rows, row.0, row.1) {
        assert (row.0, Printed(row.1)) in texts;
      }
    }
  }

  function PrintLinks(links: Links): TextLinks { map m | m in links :: Printed(links[m]) }

  function PrintRevision(v: Revision): TextRevision { TextRevision(v.member, Printed(v.link), v.request, v.linked) }

  function PrintRevisions(revisions: seq<Revision>): (texts: seq<TextRevision>)
    ensures |texts| == |revisions|
  {
    seq(|revisions|, j requires 0 <= j < |revisions| => PrintRevision(revisions[j]))
  }

  lemma {:induction false} PrintedLatest(original: Link, revisions: seq<Revision>, m: Member)
    ensures TextLatest(Printed(original), PrintRevisions(revisions), m) == Printed(Latest(original, revisions, m))
  {
    if revisions != [] {
      PrintedLatest(original, revisions[..|revisions| - 1], m);
      assert PrintRevisions(revisions)[..|revisions| - 1] == PrintRevisions(revisions[..|revisions| - 1]);
    }
  }

  lemma PrintedGraph(originals: Links, revisions: seq<Revision>)
    ensures TextGraph(PrintLinks(originals), PrintRevisions(revisions)) == PrintLinks(Graph(originals, revisions))
  {
    forall m | m in originals
      ensures TextLatest(Printed(originals[m]), PrintRevisions(revisions), m) == Printed(Latest(originals[m], revisions, m))
    {
      PrintedLatest(originals[m], revisions, m);
    }
  }

  ghost function PrintRows(rows: set<(Member, Link)>): set<(Member, TextRow)>
  {
    set row | row in rows :: (row.0, Printed(row.1))
  }

  lemma PrintedWritten(revisions: seq<Revision>)
    ensures TextWritten(PrintRevisions(revisions)) == PrintRows(Written(revisions))
  {
    var texts := PrintRevisions(revisions);
    forall j | 0 <= j < |revisions|
      ensures (texts[j].member, texts[j].link) in PrintRows(Written(revisions))
      ensures (revisions[j].member, Printed(revisions[j].link)) in TextWritten(texts)
    {
      assert (revisions[j].member, revisions[j].link) in Written(revisions);
      assert (texts[j].member, texts[j].link) in TextWritten(texts);
    }
  }

  lemma PrintedRecorded(originals: Links, revisions: seq<Revision>)
    ensures TextRecorded(PrintLinks(originals), PrintRevisions(revisions)) == PrintRows(Recorded(originals, revisions))
  {
    PrintedWritten(revisions);
    forall m | m in originals ensures (m, Printed(originals[m])) in PrintRows(Recorded(originals, revisions)) {
      assert (m, originals[m]) in Recorded(originals, revisions);
    }
    var texts := TextRecorded(PrintLinks(originals), PrintRevisions(revisions));
    forall row | row in Recorded(originals, revisions) ensures (row.0, Printed(row.1)) in texts {
      if row in Written(revisions) {
        assert (row.0, Printed(row.1)) in PrintRows(Written(revisions));
      } else {
        assert row.0 in originals && (row.0, PrintLinks(originals)[row.0]) in texts;
      }
    }
  }

  /** Every listed row names members of the tree only. */
  ghost predicate AllRefer(links: Links, rows: set<(Member, Link)>)
  {
    forall row {:trigger Refers(links, row.0, row.1)} | row in rows :: Refers(links, row.0, row.1)
  }

  ghost predicate AllTextRefer(links: TextLinks, rows: set<(Member, TextRow)>)
  {
    forall row {:trigger TextRefers(links, row.0, row.1)} | row in rows :: TextRefers(links, row.0, row.1)
  }

  lemma PrintedRefer(links: Links, rows: set<(Member, Link)>)
    ensures AllTextRefer(PrintLinks(links), PrintRows(rows)) <==> AllRefer(links, rows)
  {
    if AllTextRefer(PrintLinks(links), PrintRows(rows)) {
      forall row | row in rows ensures Refers(links, row.0, row.1) {
        assert TextRefers(PrintLinks(links), row.0, Printed(row.1)) by { assert (row.0, Printed(row.1)) in PrintRows(rows); }
      }
    }
    if AllRefer(links, rows) {
      forall text | text in PrintRows(rows) ensures TextRefers(PrintLinks(links), text.0, text.1) {
        var row :| row in rows && (row.0, Printed(row.1)) == text;
        assert Refers(links, row.0, row.1);
      }
    }
  }

  lemma ReferencesAre(originals: Links, revisions: seq<Revision>)
    ensures References(originals, revisions) <==>
      (forall j | 0 <= j < |revisions| :: revisions[j].member in originals) && AllRefer(originals, Recorded(originals, revisions))
  {
    if AllRefer(originals, Recorded(originals, revisions)) {
      forall x, r | (x, r) in Recorded(originals, revisions) ensures Refers(originals, x, r) {
        assert (x, r).0 == x && (x, r).1 == r;
      }
    }
  }

  lemma TextReferencesAre(originals: TextLinks, revisions: seq<TextRevision>)
    ensures TextReferences(originals, revisions) <==>
      (forall j | 0 <= j < |revisions| :: revisions[j].member in originals) && AllTextRefer(originals, TextRecorded(originals, revisions))
  {
    if AllTextRefer(originals, TextRecorded(originals, revisions)) {
      forall x, r | (x, r) in TextRecorded(originals, revisions) ensures TextRefers(originals, x, r) {
        assert (x, r).0 == x && (x, r).1 == r;
      }
    }
  }

  lemma PrintedMembers(originals: Links, revisions: seq<Revision>)
    ensures (forall j | 0 <= j < |revisions| :: revisions[j].member in originals)
      <==> forall j | 0 <= j < |PrintRevisions(revisions)| :: PrintRevisions(revisions)[j].member in PrintLinks(originals)
  {
    assert forall j | 0 <= j < |revisions| :: PrintRevisions(revisions)[j].member == revisions[j].member;
  }

  lemma PrintedReferences(originals: Links, revisions: seq<Revision>)
    ensures TextReferences(PrintLinks(originals), PrintRevisions(revisions)) <==> References(originals, revisions)
  {
    PrintedRecorded(originals, revisions);
    PrintedMembers(originals, revisions);
    PrintedRefer(originals, Recorded(originals, revisions));
    ReferencesAre(originals, revisions);
    TextReferencesAre(PrintLinks(originals), PrintRevisions(revisions));
  }

  lemma PrintedDistinct(links: Links)
    ensures DistinctNumbers(PrintLinks(links)) <==> DistinctPlaces(links)
  {
    forall j, k | j in links && k in links && Text(links[j].place) == Text(links[k].place) ensures links[j].place == links[k].place {
      TextInjective(links[j].place, links[k].place);
    }
    if DistinctNumbers(PrintLinks(links)) {
      forall j, k | j in links && k in links && links[j].place == links[k].place ensures j == k {
        assert PrintLinks(links)[j].number == PrintLinks(links)[k].number;
      }
    }
  }

  lemma PrintedAligned(links: Links)
    ensures TextAligned(PrintLinks(links)) <==> Aligned(links)
  {
    forall k | k in links && links[k].inviter.Some? ensures TextConsistent(PrintLinks(links), k) <==> Consistent(links, k) {
      var p := links[k].inviter.value;
      if p in links { PrintedFitsBelow(links[k], links[p]); }
    }
  }

  /** The checks on printed numbers accept the printed form of tables exactly when the checks on
      places accept the tables. */
  lemma PrintedChecks(originals: Links, revisions: seq<Revision>)
    ensures TextChecked(PrintLinks(originals), PrintRevisions(revisions)) <==> Checked(originals, revisions)
  {
    PrintedReferences(originals, revisions);
    PrintedDistinct(originals);
    PrintedRecorded(originals, revisions);
    TextCheckIsPlaceCheck(Recorded(originals, revisions));
    PrintedGraph(originals, revisions);
    PrintedDistinct(Graph(originals, revisions));
    PrintedAligned(Graph(originals, revisions));
  }

  ghost predicate IsPrinted(r: TextRow) { exists link :: Printed(link) == r }

  ghost function Parsed(r: TextRow): (link: Link)
    requires IsPrinted(r)
    ensures Printed(link) == r
  {
    var link :| Printed(link) == r; link
  }

  lemma ClosedIsPrinted(rows: set<(Member, TextRow)>)
    requires TextClosed(rows)
    ensures forall row | row in rows :: IsPrinted(row.1)
  {
    forall row | row in rows ensures IsPrinted(row.1) {
      SupportedNumbersArePlaces(rows, row.0, row.1);
    }
  }

  lemma RowsArePrinted(texts: TextLinks, textRevisions: seq<TextRevision>)
    requires TextClosed(TextRecorded(texts, textRevisions))
    ensures forall m | m in texts :: IsPrinted(texts[m])
    ensures forall j | 0 <= j < |textRevisions| :: IsPrinted(textRevisions[j].link)
  {
    ClosedIsPrinted(TextRecorded(texts, textRevisions));
    forall m | m in texts ensures IsPrinted(texts[m]) {
      assert (m, texts[m]) in TextRecorded(texts, textRevisions);
    }
    forall j | 0 <= j < |textRevisions| ensures IsPrinted(textRevisions[j].link) {
      assert (textRevisions[j].member, textRevisions[j].link) in TextRecorded(texts, textRevisions);
    }
  }

  lemma LinksArePrinted(texts: TextLinks) returns (links: Links)
    requires forall m | m in texts :: IsPrinted(texts[m])
    ensures PrintLinks(links) == texts
  {
    links := map m | m in texts :: Parsed(texts[m]);
  }

  lemma RevisionsArePrinted(texts: seq<TextRevision>) returns (revisions: seq<Revision>)
    requires forall j | 0 <= j < |texts| :: IsPrinted(texts[j].link)
    ensures PrintRevisions(revisions) == texts
  {
    revisions := seq(|texts|, j requires 0 <= j < |texts| =>
      var v := texts[j]; Revision(v.member, Parsed(v.link), v.request, v.linked));
  }

  /** Whatever texts a snapshot holds, if they pass the checks they are the printed form of
      tables that pass the checks on places. */
  lemma CheckedTextIsPrinted(texts: TextLinks, textRevisions: seq<TextRevision>) returns (originals: Links, revisions: seq<Revision>)
    requires TextChecked(texts, textRevisions)
    ensures PrintLinks(originals) == texts && PrintRevisions(revisions) == textRevisions
    ensures Checked(originals, revisions)
  {
    RowsArePrinted(texts, textRevisions);
    originals := LinksArePrinted(texts);
    revisions := RevisionsArePrinted(textRevisions);
    PrintedChecks(originals, revisions);
  }
}
