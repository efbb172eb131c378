/** The pure derivations of the nominations dashboard (src/pages/Dashboard.jsx):
    the colour class of a row, the status label, the ids the header checkbox
    selects, the filtering of an id out of the selection, and the header
    checkbox's derived state. */
module DashboardView {
  import opened Ui
  import StatsConfig

  /** The user a nomination is assigned to, as the server populates it. */
  datatype UserRef = UserRef(id: string, name: string)

  /** The parts of a nomination the dashboard's logic looks at. */
  datatype Nomination = Nomination(id: string, sent: bool, received: bool, assignee: Option<UserRef>)

  /** How a nomination date stands to the moment of rendering, as the calendar
      library answers it: the same calendar day, week and month as now, and
      strictly later than now. */
  datatype DateRel = DateRel(sameDay: bool, sameWeek: bool, sameMonth: bool, isAfter: bool)

  /** The six colour classes a row's cells can take. */
  datatype RowClass =
    | TextSuccess
    | TextDanger
    | TextWarning
    | TextWarningEmphasis
    | TextDangerEmphasis
    | TextSecondaryEmphasis

  function ClassName(c: RowClass): string
  {
    match c
    case TextSuccess => "text-success"
    case TextDanger => "text-danger"
    case TextWarning => "text-warning"
    case TextWarningEmphasis => "text-warning-emphasis"
    case TextDangerEmphasis => "text-danger-emphasis"
    case TextSecondaryEmphasis => "text-secondary-emphasis"
  }

  predicate Resolved(nom: Nomination)
  {
    nom.sent || nom.received
  }

  /** getRowClass: a first-match chain. Each class is characterised by the
      condition under which it is chosen; the conditions exclude one another. */
  function Classify(nom: Nomination, date: DateRel): (c: RowClass)
    ensures c == TextSuccess <==> Resolved(nom)
    ensures c == TextDanger <==> !Resolved(nom) && date.sameDay
    ensures c == TextWarning <==> !Resolved(nom) && !date.sameDay && date.sameWeek
    ensures c == TextWarningEmphasis <==>
              !Resolved(nom) && !date.sameDay && !date.sameWeek && date.sameMonth
    ensures c == TextDangerEmphasis <==>
              !Resolved(nom) && !date.sameDay && !date.sameWeek && !date.sameMonth && date.isAfter
    ensures c == TextSecondaryEmphasis <==>
              !Resolved(nom) && !date.sameDay && !date.sameWeek && !date.sameMonth && !date.isAfter
  {
    if nom.sent || nom.received then TextSuccess
    else if date.sameDay then TextDanger
    else if date.sameWeek then TextWarning
    else if date.sameMonth then TextWarningEmphasis
    else if date.isAfter then TextDangerEmphasis
    else TextSecondaryEmphasis
  }

  /** A sent or received nomination is green whatever its date. */
  lemma ResolvedIgnoresDate(nom: Nomination, d1: DateRel, d2: DateRel)
    requires Resolved(nom)
    ensures Classify(nom, d1) == Classify(nom, d2) == TextSuccess
  {
  }

  /** The day test runs before the week and month tests: a date on the same day
      as now is never coloured as this week's or this month's. */
  lemma SameDayNeverWeekOrMonth(nom: Nomination, date: DateRel)
    requires date.sameDay
    ensures Classify(nom, date) != TextWarning && Classify(nom, date) != TextWarningEmphasis
  {
  }

  /** Each of the six classes is produced by some nomination and date, so the
      classifier maps onto exactly these six. */
  lemma EveryClassReachable(c: RowClass)
    ensures exists nom: Nomination, date: DateRel :: Classify(nom, date) == c
  {
    var open := Nomination("", false, false, None);
    match c
    case TextSuccess =>
      assert Classify(Nomination("", true, false, None), DateRel(false, false, false, false)) == c;
    case TextDanger =>
      assert Classify(open, DateRel(true, true, true, false)) == c;
    case TextWarning =>
      assert Classify(open, DateRel(false, true, true, false)) == c;
    case TextWarningEmphasis =>
      assert Classify(open, DateRel(false, false, true, false)) == c;
    case TextDangerEmphasis =>
      assert Classify(open, DateRel(false, false, false, true)) == c;
    case TextSecondaryEmphasis =>
      assert Classify(open, DateRel(false, false, false, false)) == c;
  }

  /** A sanity check of the class strings: distinct classes render as
      distinct CSS class names. */
  lemma ClassNameInjective(c1: RowClass, c2: RowClass)
    requires ClassName(c1) == ClassName(c2)
    ensures c1 == c2
  {
  }

  /** The summary card that shares a row's colour: every row class is
      `text-` followed by the colour suffix of one of the cards. */
  function CardOf(c: RowClass): (i: nat)
    ensures i < |StatsConfig.Cards|
    ensures ClassName(c)[..5] == "text-" && ClassName(c)[5..] == StatsConfig.Cards[i].className
  {
    match c
    case TextSuccess => 4
    case TextDanger => 3
    case TextWarning => 2
    case TextWarningEmphasis => 1
    case TextDangerEmphasis => 5
    case TextSecondaryEmphasis => 0
  }

  /** A sanity check of the card table: conversely every card's colour is
      the colour of some row class. */
  lemma EveryCardColourIsARowColour(i: nat)
    requires i < |StatsConfig.Cards|
    ensures exists c :: CardOf(c) == i
  {
    var byCard := [TextSecondaryEmphasis, TextWarningEmphasis, TextWarning, TextDanger, TextSuccess, TextDangerEmphasis];
    assert CardOf(byCard[i]) == i;
  }

  /** As written, the fallback gives an unresolved nomination dated after now
      (and outside this month) the colour of the OVERDUE card, and one dated
      before now the colour of the "All" card. */
  lemma FutureRowsWearOverdueColour(nom: Nomination, date: DateRel)
    requires !Resolved(nom) && !date.sameDay && !date.sameWeek && !date.sameMonth
    ensures date.isAfter ==> StatsConfig.Cards[CardOf(Classify(nom, date))].caption == "OVERDUE"
    ensures !date.isAfter ==> StatsConfig.Cards[CardOf(Classify(nom, date))].caption == "All"
  {
  }

  /** The status column: `nom.sent ? 'Sent' : nom.received ? 'Received' : ''`. */
  function StatusLabel(nom: Nomination): (s: string)
    ensures s == "Sent" <==> nom.sent
    ensures s == "Received" <==> !nom.sent && nom.received
    ensures s == "" <==> !nom.sent && !nom.received
  {
    if nom.sent then "Sent" else if nom.received then "Received" else ""
  }

  /** A row shows a status label exactly when it is coloured green. */
  lemma LabelShownIffGreen(nom: Nomination, date: DateRel)
    ensures StatusLabel(nom) != "" <==> Classify(nom, date) == TextSuccess
  {
  }

  /** The user preselected in the assign dialog: `nomination.user_id?._id || ''`. */
  function AssigneeId(nom: Nomination): (id: string)
    ensures nom.assignee.None? ==> id == ""
    ensures nom.assignee.Some? ==> id == nom.assignee.value.id
  {
    if nom.assignee.Some? && nom.assignee.value.id != "" then nom.assignee.value.id else ""
  }

  /** `nominations.map((n) => n._id)`: the ids in list order. */
  function Ids(noms: seq<Nomination>): (ids: seq<string>)
    ensures |ids| == |noms|
    ensures forall i :: 0 <= i < |noms| ==> ids[i] == noms[i].id
  {
    if noms == [] then [] else [noms[0].id] + Ids(noms[1..])
  }

  /** Select-all selects an id exactly when some loaded nomination carries it. */
  lemma SelectAllContains(noms: seq<Nomination>, id: string)
    ensures id in Ids(noms) <==> exists i :: 0 <= i < |noms| && noms[i].id == id
  {
  }

  /** `prev.filter((id) => id !== x)`: every occurrence of `x` removed. */
  function RemoveAll(s: seq<string>, x: string): (r: seq<string>)
    ensures multiset(r) == multiset(s)[x := 0]
    ensures x !in r
    ensures forall y :: y in r <==> y in s && y != x
  {
    if s == [] then []
    else
      var rest := RemoveAll(s[1..], x);
      assert s == [s[0]] + s[1..];
      if s[0] == x then rest else [s[0]] + rest
  }

  /** Filtering works piecewise, so the ids that stay keep their order. */
  lemma {:induction false} RemoveAllDistributes(a: seq<string>, b: seq<string>, x: string)
    ensures RemoveAll(a + b, x) == RemoveAll(a, x) + RemoveAll(b, x)
  {
    if a == [] {
      assert a + b == b;
    } else {
      assert (a + b)[1..] == a[1..] + b;
      RemoveAllDistributes(a[1..], b, x);
    }
  }

  /** Removing an id that is not selected leaves the selection as it was. */
  lemma {:induction false} RemoveAllAbsent(s: seq<string>, x: string)
    requires x !in s
    ensures RemoveAll(s, x) == s
  {
    if s != [] {
      assert x !in s[1..];
      RemoveAllAbsent(s[1..], x);
      assert s == [s[0]] + s[1..];
    }
  }

  /** The header checkbox's state is derived on every render:
      `nominations.length > 0 && selectedIds.length === nominations.length`.
      A checked header never shows over an empty list or an empty selection. */
  predicate HeaderChecked(noms: seq<Nomination>, selected: seq<string>)
    ensures HeaderChecked(noms, selected) ==> noms != [] && selected != []
  {
    |noms| > 0 && |selected| == |noms|
  }

  /** After select-all the header reads checked exactly when the list is not empty. */
  lemma SelectAllChecksHeader(noms: seq<Nomination>)
    ensures HeaderChecked(noms, Ids(noms)) <==> noms != []
  {
  }

  /** The header compares lengths, not ids: a stale selection of as many ids as
      there are rows reads as "all selected" although no row is. */
  lemma HeaderCheckedIsLengthOnly()
    ensures var noms := [Nomination("b", false, false, None)];
            var selected := ["a"];
            HeaderChecked(noms, selected) && "b" !in selected
  {
  }

  predicate NoDup(s: seq<string>)
  {
    forall i, j :: 0 <= i < j < |s| ==> s[i] != s[j]
  }

  function Elements(s: seq<string>): set<string>
  {
    set x | x in s
  }

  /** Dropping the first id keeps the rest free of duplicates, and the first
      id does not occur again. */
  lemma NoDupTail(s: seq<string>)
    requires NoDup(s) && s != []
    ensures NoDup(s[1..]) && s[0] !in s[1..]
  {
    var t := s[1..];
    forall i, j | 0 <= i < j < |t| ensures t[i] != t[j] {
      assert t[i] == s[i + 1] && t[j] == s[j + 1];
    }
    forall k | 0 <= k < |t| ensures t[k] != s[0] {
      assert t[k] == s[k + 1];
    }
  }

  /** Putting a fresh id in front keeps a sequence free of duplicates. */
  lemma NoDupCons(x: string, t: seq<string>)
    requires NoDup(t) && x !in t
    ensures NoDup([x] + t)
  {
    var s := [x] + t;
    forall i, j | 0 <= i < j < |s| ensures s[i] != s[j] {
      assert s[j] == t[j - 1];
      if i > 0 {
        assert s[i] == t[i - 1];
      }
    }
  }

  /** Filtering an id out never introduces a duplicate. */
  lemma {:induction false} RemoveAllNoDup(s: seq<string>, x: string)
    requires NoDup(s)
    ensures NoDup(RemoveAll(s, x))
  {
    if s != [] {
      NoDupTail(s);
      RemoveAllNoDup(s[1..], x);
      if s[0] != x {
        NoDupCons(s[0], RemoveAll(s[1..], x));
      }
    }
  }

  /** Appending an id that is not selected yet keeps the selection free of
      duplicates. */
  lemma AppendFreshNoDup(s: seq<string>, x: string)
    requires NoDup(s) && x !in s
    ensures NoDup(s + [x])
  {
    var r := s + [x];
    forall i, j | 0 <= i < j < |r| ensures r[i] != r[j] {
      assert r[i] == s[i];
    }
  }

  /** A row checkbox is controlled: it shows `selectedIds.includes(id)`, so a
      click delivers the negation of what it shows. A ticked row's id is
      filtered out, an unticked row's id is appended; no other id moves in or
      out. */
  function ClickRow(selected: seq<string>, id: string): (r: seq<string>)
    ensures id in r <==> id !in selected
    ensures forall other :: other != id ==> (other in r <==> other in selected)
  {
    if id in selected then RemoveAll(selected, id) else selected + [id]
  }

  /** Clicking a row never puts an id in the selection twice. */
  lemma ClickRowKeepsNoDup(selected: seq<string>, id: string)
    requires NoDup(selected)
    ensures NoDup(ClickRow(selected, id))
  {
    if id in selected {
      RemoveAllNoDup(selected, id);
    } else {
      AppendFreshNoDup(selected, id);
    }
  }

  /** Clicking a loaded row keeps the selection within the loaded rows' ids. */
  lemma ClickRowKeepsLoaded(noms: seq<Nomination>, selected: seq<string>, id: string)
    requires id in Ids(noms) && Elements(selected) <= Elements(Ids(noms))
    ensures Elements(ClickRow(selected, id)) <= Elements(Ids(noms))
  {
  }

  /** The header checkbox is controlled as well: a click on a checked header
      clears the selection, a click on an unchecked one selects every loaded
      row, which leaves the header checked exactly when there are rows. */
  function ClickHeader(noms: seq<Nomination>, selected: seq<string>): (r: seq<string>)
    ensures HeaderChecked(noms, selected) ==> r == [] && !HeaderChecked(noms, r)
    ensures !HeaderChecked(noms, selected) ==>
              (forall id :: id in r <==> id in Ids(noms)) && (HeaderChecked(noms, r) <==> noms != [])
  {
    if HeaderChecked(noms, selected) then [] else Ids(noms)
  }

  /** With unique row ids, the header's selection has no duplicates and only
      loaded ids. */
  lemma ClickHeaderConsistent(noms: seq<Nomination>, selected: seq<string>)
    requires NoDup(Ids(noms))
    ensures NoDup(ClickHeader(noms, selected))
    ensures Elements(ClickHeader(noms, selected)) <= Elements(Ids(noms))
  {
  }

  lemma {:induction false} NoDupCardinality(s: seq<string>)
    requires NoDup(s)
    ensures |Elements(s)| == |s|
  {
    if s != [] {
      var t := s[1..];
      NoDupTail(s);
      NoDupCardinality(t);
      assert s == [s[0]] + t;
      assert Elements(s) == {s[0]} + Elements(t);
    }
  }

  lemma SubsetOfEqualSize(a: set<string>, b: set<string>)
    requires a <= b && |a| == |b|
    ensures a == b
  {
    assert b == a + (b - a);
    assert |b - a| == 0;
  }

  /** When ids are unique and the selection only holds loaded ids (no stale
      ones), the length test agrees with "every loaded row is selected". */
  lemma HeaderCheckedIffAllSelected(noms: seq<Nomination>, selected: seq<string>)
    requires NoDup(Ids(noms)) && NoDup(selected)
    requires Elements(selected) <= Elements(Ids(noms))
    ensures HeaderChecked(noms, selected) <==>
              noms != [] && Elements(selected) == Elements(Ids(noms))
  {
    NoDupCardinality(Ids(noms));
    NoDupCardinality(selected);
    if |selected| == |noms| {
      SubsetOfEqualSize(Elements(selected), Elements(Ids(noms)));
    }
  }
}
