/** The ticket book: the lotto_tickets table and the service operations that change it. */
module LottoTickets {
  import opened Options
  import opened Text
  import opened LottoNumbers
  import LottoCalendar

  datatype Source = Recommended | Manual

  datatype Ticket = Ticket(userId: string, round: int, lineNo: int, numbers: seq<int>, source: Source, active: bool)

  /** lotto_tickets in insertion order. */
  type Rows = seq<Ticket>

  /** WHERE user_id = ? AND round = ? AND status = 'active', optionally of one source or of
      some lines. */
  datatype Query = Query(userId: string, round: int, source: Option<Source>, lines: Option<set<int>>)

  predicate Hit(q: Query, t: Ticket) {
    && t.active
    && t.userId == q.userId
    && t.round == q.round
    && (q.source.Some? ==> t.source == q.source.value)
    && (q.lines.Some? ==> t.lineNo in q.lines.value)
  }

  function Select(rows: Rows, q: Query): seq<Ticket> {
    if rows == [] then []
    else
      var last := rows[|rows| - 1];
      Select(rows[..|rows| - 1], q) + if Hit(q, last) then [last] else []
  }

  function Active(user: string, round: int): Query {
    Query(Trim(user), round, None, None)
  }

  function ActiveRecommended(user: string, round: int): Query {
    Query(Trim(user), round, Some(Recommended), None)
  }

  /** COALESCE(MAX(line_no), 0) over the user's lines of the round, active or not. */
  function MaxLine(rows: Rows, userId: string, round: int): (m: nat) {
    if rows == [] then 0
    else
      var last := rows[|rows| - 1];
      var m: nat := MaxLine(rows[..|rows| - 1], userId, round);
      if last.userId == userId && last.round == round && last.lineNo > m then last.lineNo else m
  }

  /** UPDATE ... SET status = 'inactive'. */
  function Deactivate(rows: Rows, q: Query): (r: Rows)
    ensures |r| == |rows|
    ensures forall i :: 0 <= i < |r| ==> r[i] == if Hit(q, rows[i]) then rows[i].(active := false) else rows[i]
  {
    seq(|rows|, i requires 0 <= i < |rows| => if Hit(q, rows[i]) then rows[i].(active := false) else rows[i])
  }

  function NewTickets(user: string, round: int, lineNo: int, sets: seq<seq<int>>, source: Source): seq<Ticket> {
    seq(|sets|, i requires 0 <= i < |sets| => Ticket(Trim(user), round, lineNo + i, sets[i], source, true))
  }

  // ---------- what the operations do ----------

  /** `round` is the open round, None when no draw is available. */
  datatype Op =
    | Recommend(user: string, round: Option<int>, picks: seq<seq<int>>)
    | Register(user: string, round: Option<int>, values: seq<int>)
    | Delete(user: string, round: Option<int>, line: Option<int>)

  predicate ValidOp(op: Op) {
    op.Recommend? ==> |op.picks| == 5 && forall i :: 0 <= i < 5 ==> IsNumbers(op.picks[i])
  }

  datatype Answer = Unavailable | InvalidNumbers | Tickets(tickets: seq<Ticket>) | Added(total: nat, added: seq<Ticket>) | Deleted(lines: seq<Ticket>)

  function Lines(line: Option<int>): Option<set<int>> {
    if line.Some? then Some({line.value}) else None
  }

  /** The lines a recommendation adds: none when some are active already. */
  function NewPicks(rows: Rows, user: string, round: int, picks: seq<seq<int>>): seq<Ticket> {
    if Select(rows, ActiveRecommended(user, round)) != [] then []
    else NewTickets(user, round, MaxLine(rows, Trim(user), round) + 1, picks, Recommended)
  }

  function NewManual(rows: Rows, user: string, round: int, values: seq<int>): seq<Ticket>
    requires ValidValues(values)
  {
    NewTickets(user, round, MaxLine(rows, Trim(user), round) + 1, NumberSets(values), Manual)
  }

  function Inserted(rows: Rows, op: Op): seq<Ticket> {
    if op.round == None then []
    else
      match op
      case Recommend(user, round, picks) => NewPicks(rows, user, round.value, picks)
      case Register(user, round, values) => if ValidValues(values) then NewManual(rows, user, round.value, values) else []
      case Delete(_, _, _) => []
  }

  function Apply(rows: Rows, op: Op): Rows {
    if op.Delete? && op.round.Some?
    then Deactivate(rows, Query(Trim(op.user), op.round.value, None, Lines(op.line)))
    else rows + Inserted(rows, op)
  }

  function Inactive(tickets: seq<Ticket>): (r: seq<Ticket>)
    ensures |r| == |tickets|
    ensures forall i :: 0 <= i < |r| ==> r[i] == tickets[i].(active := false)
  {
    seq(|tickets|, i requires 0 <= i < |tickets| => tickets[i].(active := false))
  }

  function Reply(rows: Rows, op: Op): Answer {
    if op.Register? && !ValidValues(op.values) then InvalidNumbers
    else if op.round == None then Unavailable
    else
      match op
      case Recommend(user, round, _) =>
        Tickets(Select(rows, ActiveRecommended(user, round.value)) + Inserted(rows, op))
      case Register(user, round, _) =>
        Added(|Select(rows, Active(user, round.value))| + |Inserted(rows, op)|, Inserted(rows, op))
      case Delete(user, round, line) =>
        Deleted(Inactive(Select(rows, Query(Trim(user), round.value, None, Lines(line)))))
  }

  // ---------- the invariant of the book ----------

  predicate SameOwner(a: Ticket, b: Ticket) {
    a.userId == b.userId && a.round == b.round
  }

  /** A user's lines of a round are numbered upwards in the order they were made, so no two
      lines, active or deleted, ever share a number. */
  ghost predicate Numbered(rows: Rows) {
    && (forall i :: 0 <= i < |rows| ==> rows[i].lineNo >= 1)
    && (forall i, j :: 0 <= i < j < |rows| && SameOwner(rows[i], rows[j]) ==> rows[i].lineNo < rows[j].lineNo)
  }

  ghost predicate ProperNumbers(rows: Rows) {
    forall i :: 0 <= i < |rows| ==> IsNumbers(rows[i].numbers)
  }

  ghost predicate FewRecommended(rows: Rows) {
    forall user, round :: |Select(rows, ActiveRecommended(user, round))| <= 5
  }

  ghost predicate BookInv(rows: Rows) {
    Numbered(rows) && ProperNumbers(rows) && FewRecommended(rows)
  }

  /** Rows are only appended, and an old row changes only by being deactivated. */
  ghost predicate Extends(before: Rows, after: Rows) {
    && |before| <= |after|
    && (forall i :: 0 <= i < |before| ==> after[i] == before[i] || after[i] == before[i].(active := false))
  }

  // ---------- Select ----------

  lemma {:induction false} SelectMembers(rows: Rows, q: Query, t: Ticket)
    ensures t in Select(rows, q) <==> t in rows && Hit(q, t)
  {
    if rows != [] {
      var front, last := rows[..|rows| - 1], rows[|rows| - 1];
      SelectMembers(front, q, t);
      assert rows == front + [last];
    }
  }

  /** The largest line number of the owner's lines, 0 when there is none. */
  lemma {:induction false} MaxLineIsLargest(rows: Rows, userId: string, round: int)
    ensures forall i :: 0 <= i < |rows| && rows[i].userId == userId && rows[i].round == round ==>
              rows[i].lineNo <= MaxLine(rows, userId, round)
    ensures MaxLine(rows, userId, round) == 0 || exists i ::
              0 <= i < |rows| && rows[i].userId == userId && rows[i].round == round && rows[i].lineNo == MaxLine(rows, userId, round)
  {
    if rows != [] {
      var n := |rows| - 1;
      MaxLineIsLargest(rows[..n], userId, round);
      var m := MaxLine(rows[..n], userId, round);
      if m > 0 {
        var i :| 0 <= i < n && rows[..n][i].userId == userId && rows[..n][i].round == round && rows[..n][i].lineNo == m;
        assert rows[i].lineNo == m;
      }
    }
  }

  lemma {:induction false} SelectAppend(rows: Rows, more: Rows, q: Query)
    ensures Select(rows + more, q) == Select(rows, q) + Select(more, q)
  {
    if more == [] {
      assert rows + more == rows;
    } else {
      var n := |more| - 1;
      assert (rows + more)[..|rows| + n] == rows + more[..n];
      SelectAppend(rows, more[..n], q);
    }
  }

  lemma {:induction false} SelectAll(rows: Rows, q: Query)
    requires forall i :: 0 <= i < |rows| ==> Hit(q, rows[i])
    ensures Select(rows, q) == rows
  {
    if rows != [] {
      SelectAll(rows[..|rows| - 1], q);
      assert rows == rows[..|rows| - 1] + [rows[|rows| - 1]];
    }
  }

  lemma {:induction false} SelectNone(rows: Rows, q: Query)
    requires forall i :: 0 <= i < |rows| ==> !Hit(q, rows[i])
    ensures Select(rows, q) == []
  {
    if rows != [] {
      SelectNone(rows[..|rows| - 1], q);
    }
  }

  /** What a query finds comes in line order. */
  lemma {:induction false} SelectInLineOrder(rows: Rows, q: Query)
    requires Numbered(rows)
    ensures Numbered(Select(rows, q))
    ensures forall i, j :: 0 <= i < j < |Select(rows, q)| ==> Select(rows, q)[i].lineNo < Select(rows, q)[j].lineNo
  {
    if rows != [] {
      var front, last := rows[..|rows| - 1], rows[|rows| - 1];
      SelectInLineOrder(front, q);
      var found := Select(front, q);
      forall k | 0 <= k < |found| && Hit(q, last) ensures SameOwner(found[k], last) && 1 <= found[k].lineNo < last.lineNo {
        SelectMembers(front, q, found[k]);
        var i :| 0 <= i < |front| && front[i] == found[k];
      }
    }
  }

  /** Deactivating finds no more, */
  lemma {:induction false} DeactivateFindsNoMore(rows: Rows, gone: Query, q: Query)
    ensures |Select(Deactivate(rows, gone), q)| <= |Select(rows, q)|
  {
    if rows != [] {
      var n := |rows| - 1;
      DeactivateFindsNoMore(rows[..n], gone, q);
      assert Deactivate(rows, gone)[..n] == Deactivate(rows[..n], gone);
    }
  }

  /** leaves what another query finds, */
  lemma {:induction false} DeactivateLeaves(rows: Rows, gone: Query, q: Query)
    requires forall i :: 0 <= i < |rows| && Hit(gone, rows[i]) ==> !Hit(q, rows[i])
    ensures Select(Deactivate(rows, gone), q) == Select(rows, q)
  {
    if rows != [] {
      var n := |rows| - 1;
      DeactivateLeaves(rows[..n], gone, q);
      assert Deactivate(rows, gone)[..n] == Deactivate(rows[..n], gone);
    }
  }

  /** and takes exactly its own out of what a wider query finds. */
  lemma {:induction false} DeactivateSplits(rows: Rows, gone: Query, q: Query)
    requires forall i :: 0 <= i < |rows| && Hit(gone, rows[i]) ==> Hit(q, rows[i])
    ensures |Select(rows, q)| == |Select(rows, gone)| + |Select(Deactivate(rows, gone), q)|
  {
    if rows != [] {
      var n := |rows| - 1;
      DeactivateSplits(rows[..n], gone, q);
      assert Deactivate(rows, gone)[..n] == Deactivate(rows[..n], gone);
    }
  }

  // ---------- every operation keeps the book ----------

  lemma InsertKeepsNumbers(rows: Rows, user: string, round: int, sets: seq<seq<int>>, source: Source)
    requires Numbered(rows) && ProperNumbers(rows)
    requires forall i :: 0 <= i < |sets| ==> IsNumbers(sets[i])
    ensures Numbered(rows + NewTickets(user, round, MaxLine(rows, Trim(user), round) + 1, sets, source))
    ensures ProperNumbers(rows + NewTickets(user, round, MaxLine(rows, Trim(user), round) + 1, sets, source))
  {
    var max := MaxLine(rows, Trim(user), round);
    MaxLineIsLargest(rows, Trim(user), round);
    var after := rows + NewTickets(user, round, max + 1, sets, source);
    forall i, j | 0 <= i < j < |after| && SameOwner(after[i], after[j]) ensures after[i].lineNo < after[j].lineNo {
      if i < |rows| <= j {
        assert rows[i].lineNo <= max;
      }
    }
  }

  lemma InsertKeepsFew(rows: Rows, added: seq<Ticket>, user: string, round: int)
    requires FewRecommended(rows) && |added| <= 5 && Select(rows, ActiveRecommended(user, round)) == []
    requires forall i :: 0 <= i < |added| ==> added[i].userId == Trim(user) && added[i].round == round
    ensures FewRecommended(rows + added)
  {
    forall u, r ensures |Select(rows + added, ActiveRecommended(u, r))| <= 5 {
      var q := ActiveRecommended(u, r);
      SelectAppend(rows, added, q);
      SelectAtMost(added, q);
      if Trim(u) == Trim(user) && r == round {
        assert q == ActiveRecommended(user, round);
      } else {
        SelectNone(added, q);
      }
    }
  }

  lemma {:induction false} SelectAtMost(rows: Rows, q: Query)
    ensures |Select(rows, q)| <= |rows|
  {
    if rows != [] {
      SelectAtMost(rows[..|rows| - 1], q);
    }
  }

  lemma ManualKeepsFew(rows: Rows, added: seq<Ticket>)
    requires FewRecommended(rows)
    requires forall i :: 0 <= i < |added| ==> added[i].source == Manual
    ensures FewRecommended(rows + added)
  {
    forall u, r ensures |Select(rows + added, ActiveRecommended(u, r))| <= 5 {
      SelectAppend(rows, added, ActiveRecommended(u, r));
      SelectNone(added, ActiveRecommended(u, r));
    }
  }

  lemma DeactivateKeeps(rows: Rows, q: Query)
    requires BookInv(rows)
    ensures BookInv(Deactivate(rows, q))
  {
    forall u, r ensures |Select(Deactivate(rows, q), ActiveRecommended(u, r))| <= 5 {
      DeactivateFindsNoMore(rows, q, ActiveRecommended(u, r));
    }
  }

  lemma NumberSetsAreNumbers(values: seq<int>)
    requires ValidValues(values)
    ensures forall g :: 0 <= g < |NumberSets(values)| ==> IsNumbers(NumberSets(values)[g])
  {
    forall g | 0 <= g < |NumberSets(values)| ensures IsNumbers(NumberSets(values)[g]) {
      NormalizedSetIsNumbers(Six(values, g));
    }
  }

  lemma RecommendKeepsBook(rows: Rows, user: string, round: int, picks: seq<seq<int>>)
    requires BookInv(rows) && ValidOp(Recommend(user, Some(round), picks))
    ensures BookInv(rows + NewPicks(rows, user, round, picks))
  {
    if Select(rows, ActiveRecommended(user, round)) == [] {
      InsertKeepsNumbers(rows, user, round, picks, Recommended);
      InsertKeepsFew(rows, NewTickets(user, round, MaxLine(rows, Trim(user), round) + 1, picks, Recommended), user, round);
    } else {
      assert rows + [] == rows;
    }
  }

  lemma ManualKeepsBook(rows: Rows, user: string, round: int, sets: seq<seq<int>>)
    requires BookInv(rows) && forall i :: 0 <= i < |sets| ==> IsNumbers(sets[i])
    ensures BookInv(rows + NewTickets(user, round, MaxLine(rows, Trim(user), round) + 1, sets, Manual))
  {
    InsertKeepsNumbers(rows, user, round, sets, Manual);
    ManualKeepsFew(rows, NewTickets(user, round, MaxLine(rows, Trim(user), round) + 1, sets, Manual));
  }

  lemma RegisterKeepsBook(rows: Rows, user: string, round: int, values: seq<int>)
    requires BookInv(rows) && ValidValues(values)
    ensures BookInv(rows + NewManual(rows, user, round, values))
  {
    NumberSetsAreNumbers(values);
    ManualKeepsBook(rows, user, round, NumberSets(values));
  }

  lemma {:induction false} StepExtends(rows: Rows, op: Op)
    ensures Extends(rows, Apply(rows, op))
  {
  }

  lemma StepKeepsBook(rows: Rows, op: Op)
    requires BookInv(rows) && ValidOp(op)
    ensures BookInv(Apply(rows, op))
  {
    if op.round == None || (op.Register? && !ValidValues(op.values)) {
      assert rows + [] == rows;
    } else {
      match op
      case Recommend(user, round, picks) => RecommendKeepsBook(rows, user, round.value, picks);
      case Register(user, round, values) => RegisterKeepsBook(rows, user, round.value, values);
      case Delete(user, round, line) => DeactivateKeeps(rows, Query(Trim(user), round.value, None, Lines(line)));
    }
  }

  // ---------- whole runs ----------

  function RunOps(rows: Rows, ops: seq<Op>): Rows
    decreases |ops|
  {
    if ops == [] then rows else RunOps(Apply(rows, ops[0]), ops[1..])
  }

  predicate ValidOps(ops: seq<Op>) {
    forall i :: 0 <= i < |ops| ==> ValidOp(ops[i])
  }

  lemma {:induction false} ExtendsTwice(a: Rows, b: Rows, c: Rows)
    requires Extends(a, b) && Extends(b, c)
    ensures Extends(a, c)
  {
  }

  lemma {:induction false} RunKeepsBook(rows: Rows, ops: seq<Op>)
    requires BookInv(rows) && ValidOps(ops)
    ensures BookInv(RunOps(rows, ops)) && Extends(rows, RunOps(rows, ops))
    decreases |ops|
  {
    if ops != [] {
      StepKeepsBook(rows, ops[0]);
      StepExtends(rows, ops[0]);
      RunKeepsBook(Apply(rows, ops[0]), ops[1..]);
      ExtendsTwice(rows, Apply(rows, ops[0]), RunOps(Apply(rows, ops[0]), ops[1..]));
    }
  }

  lemma {:induction false} EmptyBook()
    ensures BookInv([])
  {
    forall u, r ensures |Select([], ActiveRecommended(u, r))| <= 5 {
      SelectNone([], ActiveRecommended(u, r));
    }
  }

  /** Main result: after any run from an empty book and any run after that, the book is sound,
      every line of the first book is still there with its owner, number and numbers, a deleted
      line is never active again, and each line made later has a number its owner never had. */
  lemma {:induction false} LineNumbersNeverReused(empty: Rows, first: seq<Op>, book: Rows, later: seq<Op>, book': Rows)
    requires ValidOps(first) && ValidOps(later)
    requires empty == [] && book == RunOps(empty, first) && book' == RunOps(book, later)
    ensures BookInv(book') && |book| <= |book'|
    ensures forall i :: 0 <= i < |book| ==> book'[i] == book[i] || book'[i] == book[i].(active := false)
    ensures forall i, j :: 0 <= i < |book| && i < j < |book'| && SameOwner(book[i], book'[j]) ==>
              book'[j].lineNo > book[i].lineNo
  {
    EmptyBook();
    RunKeepsBook(empty, first);
    RunKeepsBook(book, later);
    forall i, j | 0 <= i < |book| && i < j < |book'| && SameOwner(book[i], book'[j])
      ensures book'[j].lineNo > book[i].lineNo
    {
      assert SameOwner(book'[i], book'[j]);
    }
  }

  predicate DeletesFrom(op: Op, user: string, round: int) {
    op.Delete? && op.round == Some(round) && Trim(op.user) == Trim(user)
  }

  lemma StepKeepsRecommended(rows: Rows, op: Op, user: string, round: int)
    requires ValidOp(op) && !DeletesFrom(op, user, round)
    requires Select(rows, ActiveRecommended(user, round)) != []
    ensures Select(Apply(rows, op), ActiveRecommended(user, round)) == Select(rows, ActiveRecommended(user, round))
  {
    var q := ActiveRecommended(user, round);
    if op.Delete? && op.round.Some? {
      DeactivateLeaves(rows, Query(Trim(op.user), op.round.value, None, Lines(op.line)), q);
    } else {
      InsertedMissesRecommended(rows, op, user, round);
      AppendOthers(rows, Inserted(rows, op), q);
    }
  }

  lemma {:induction false} InsertedMissesRecommended(rows: Rows, op: Op, user: string, round: int)
    requires Select(rows, ActiveRecommended(user, round)) != []
    ensures forall i :: 0 <= i < |Inserted(rows, op)| ==> !Hit(ActiveRecommended(user, round), Inserted(rows, op)[i])
  {
    if op.Recommend? && op.round == Some(round) && Trim(op.user) == Trim(user) {
      assert ActiveRecommended(op.user, round) == ActiveRecommended(user, round);
    }
  }

  lemma {:induction false} RunKeepsRecommended(rows: Rows, ops: seq<Op>, user: string, round: int)
    requires ValidOps(ops) && forall i :: 0 <= i < |ops| ==> !DeletesFrom(ops[i], user, round)
    requires Select(rows, ActiveRecommended(user, round)) != []
    ensures Select(RunOps(rows, ops), ActiveRecommended(user, round)) == Select(rows, ActiveRecommended(user, round))
    decreases |ops|
  {
    if ops != [] {
      StepKeepsRecommended(rows, ops[0], user, round);
      RunKeepsRecommended(Apply(rows, ops[0]), ops[1..], user, round);
    }
  }

  /** The tickets returned are the user's active recommended ones afterwards, never none; when
      there were some before, nothing changes. */
  lemma RecommendGives(rows: Rows, op: Op)
    requires ValidOp(op) && op.Recommend? && op.round.Some?
    ensures Reply(rows, op) == Tickets(Select(Apply(rows, op), ActiveRecommended(op.user, op.round.value)))
    ensures Reply(rows, op).tickets != []
    ensures Select(rows, ActiveRecommended(op.user, op.round.value)) != [] ==> Apply(rows, op) == rows
  {
    var q, added := ActiveRecommended(op.user, op.round.value), Inserted(rows, op);
    SelectAppend(rows, added, q);
    SelectAll(added, q);
  }

  /** Main result: once a user was recommended tickets for a round, and whatever anyone does
      then short of that user deleting lines of it, asking again changes nothing and returns
      the same tickets. */
  lemma {:induction false} RecommendAgainChangesNothing(rows: Rows, op: Op, ops: seq<Op>, again: Op)
    requires ValidOp(op) && ValidOp(again) && ValidOps(ops)
    requires op.Recommend? && op.round.Some? && again.Recommend?
    requires again.round == op.round && Trim(again.user) == Trim(op.user)
    requires forall i :: 0 <= i < |ops| ==> !DeletesFrom(ops[i], op.user, op.round.value)
    ensures Apply(RunOps(Apply(rows, op), ops), again) == RunOps(Apply(rows, op), ops)
    ensures Reply(RunOps(Apply(rows, op), ops), again) == Reply(rows, op)
  {
    var q := ActiveRecommended(op.user, op.round.value);
    assert q == ActiveRecommended(again.user, again.round.value);
    RecommendGives(rows, op);
    RunKeepsRecommended(Apply(rows, op), ops, op.user, op.round.value);
    RecommendGives(RunOps(Apply(rows, op), ops), again);
  }

  lemma AppendActive(rows: Rows, added: seq<Ticket>, q: Query)
    requires forall i :: 0 <= i < |added| ==> Hit(q, added[i])
    ensures |Select(rows + added, q)| == |Select(rows, q)| + |added|
  {
    SelectAppend(rows, added, q);
    SelectAll(added, q);
  }

  lemma AppendOthers(rows: Rows, added: seq<Ticket>, q: Query)
    requires forall i :: 0 <= i < |added| ==> !Hit(q, added[i])
    ensures Select(rows + added, q) == Select(rows, q)
  {
    SelectAppend(rows, added, q);
    SelectNone(added, q);
  }

  /** Registering adds one line a number set to the active ones, and the total counts both. */
  lemma RegisterCountsActive(rows: Rows, op: Op)
    requires op.Register? && op.round.Some? && ValidValues(op.values)
    ensures Reply(rows, op).total
            == |Select(rows, Active(op.user, op.round.value))| + |op.values| / 6
            == |Select(Apply(rows, op), Active(op.user, op.round.value))|
  {
    var added := Inserted(rows, op);
    assert |added| == |op.values| / 6;
    AppendActive(rows, added, Active(op.user, op.round.value));
  }

  /** Main result: the lines reported deleted are exactly the rows that changed, and with the
      lines still active they make up those active before. */
  lemma {:induction false} DeletedAreTheFlipped(rows: Rows, op: Op)
    requires op.Delete? && op.round.Some?
    ensures Apply(rows, op) == Deactivate(rows, Query(Trim(op.user), op.round.value, None, Lines(op.line)))
    ensures forall t :: t in Reply(rows, op).lines <==>
              FlippedTo(rows, Query(Trim(op.user), op.round.value, None, Lines(op.line)), t)
    ensures |Select(rows, Active(op.user, op.round.value))|
            == |Reply(rows, op).lines| + |Select(Apply(rows, op), Active(op.user, op.round.value))|
  {
    var q := Query(Trim(op.user), op.round.value, None, Lines(op.line));
    DeactivateSplits(rows, q, Active(op.user, op.round.value));
    forall t ensures t in Reply(rows, op).lines <==> FlippedTo(rows, q, t) {
      InactiveAreFlipped(rows, q, t);
    }
  }

  /** Some row changed when the query was deactivated, to t. */
  ghost predicate FlippedTo(rows: Rows, q: Query, t: Ticket) {
    exists i :: 0 <= i < |rows| && Deactivate(rows, q)[i] != rows[i] && Deactivate(rows, q)[i] == t
  }

  lemma {:induction false} InactiveAreFlipped(rows: Rows, q: Query, t: Ticket)
    ensures t in Inactive(Select(rows, q)) <==> FlippedTo(rows, q, t)
  {
    var hits, lines := Select(rows, q), Inactive(Select(rows, q));
    if t in lines {
      var k :| 0 <= k < |lines| && lines[k] == t;
      SelectMembers(rows, q, hits[k]);
      var i :| 0 <= i < |rows| && rows[i] == hits[k];
      assert Deactivate(rows, q)[i] == t;
    }
    if FlippedTo(rows, q, t) {
      var i :| 0 <= i < |rows| && Deactivate(rows, q)[i] != rows[i] && Deactivate(rows, q)[i] == t;
      SelectMembers(rows, q, rows[i]);
      var k :| 0 <= k < |hits| && hits[k] == rows[i];
      assert lines[k] == t;
    }
  }

  // ---------- the three lists of a user's overview ----------

  /** QueryMine lists a user's active tickets of the known draw's round, of the pending one and
      of the open one: no ticket is in two of them, whatever draw is known. */
  lemma OverviewListsAreDisjoint(rows: Rows, user: string, draw: LottoCalendar.Draw, now: LottoCalendar.Time, t: Ticket)
    ensures !(t in Select(rows, Active(user, draw.round))
              && t in Select(rows, Active(user, LottoCalendar.LatestState(draw, now).registrationRound)))
    ensures LottoCalendar.LatestState(draw, now).pendingRound > 0
            && t in Select(rows, Active(user, LottoCalendar.LatestState(draw, now).pendingRound)) ==>
              && t !in Select(rows, Active(user, draw.round))
              && t !in Select(rows, Active(user, LottoCalendar.LatestState(draw, now).registrationRound))
  {
    var state := LottoCalendar.LatestState(draw, now);
    SelectMembers(rows, Active(user, draw.round), t);
    SelectMembers(rows, Active(user, state.pendingRound), t);
    SelectMembers(rows, Active(user, state.registrationRound), t);
  }

  // ---------- the table ----------

  /** The unique index on user, round and line. */
  predicate SameLine(a: Ticket, b: Ticket) {
    SameOwner(a, b) && a.lineNo == b.lineNo
  }

  ghost predicate Fits(rows: Rows, tickets: seq<Ticket>) {
    forall i, j :: 0 <= i < j < |rows + tickets| && |rows| <= j ==> !SameLine((rows + tickets)[i], (rows + tickets)[j])
  }

  function Stored(tickets: seq<Ticket>): (r: seq<Ticket>)
    ensures |r| == |tickets|
    ensures forall i :: 0 <= i < |r| ==> r[i] == tickets[i].(userId := Trim(tickets[i].userId))
  {
    seq(|tickets|, i requires 0 <= i < |tickets| => tickets[i].(userId := Trim(tickets[i].userId)))
  }

  class TicketStore {
    var rows: Rows

    constructor ()
      ensures rows == []
    {
      rows := [];
    }

    method NextLineNo(userId: string, round: int) returns (n: int)
      ensures n == MaxLine(rows, Trim(userId), round) + 1
    {
      n := MaxLine(rows, Trim(userId), round) + 1;
    }

    /** One transaction: all tickets, or none when a line is taken. */
    method InsertTickets(tickets: seq<Ticket>) returns (ok: bool)
      modifies this
      ensures ok <==> Fits(old(rows), Stored(tickets))
      ensures rows == if ok then old(rows) + Stored(tickets) else old(rows)
    {
      ghost var stored := Stored(tickets);
      var done := rows;
      for k := 0 to |tickets|
        invariant rows == old(rows)
        invariant done == rows + stored[..k] && Fits(rows, stored[..k])
      {
        var ticket := tickets[k].(userId := Trim(tickets[k].userId));
        if exists i :: 0 <= i < |done| && SameLine(done[i], ticket) {
          assert forall i :: 0 <= i < |done| ==> (rows + stored)[i] == done[i];
          assert (rows + stored)[|done|] == ticket;
          return false;
        }
        assert stored[..k + 1] == stored[..k] + [ticket];
        done := done + [ticket];
      }
      assert stored[..|tickets|] == stored;
      rows := done;
      ok := true;
    }

    /** WHERE user_id = ? AND round = ? AND status = 'active' ORDER BY line_no ASC. */
    method ListUserTickets(userId: string, round: int) returns (tickets: seq<Ticket>)
      requires Numbered(rows)
      ensures tickets == Select(rows, Active(userId, round))
      ensures forall i, j :: 0 <= i < j < |tickets| ==> tickets[i].lineNo < tickets[j].lineNo
    {
      SelectInLineOrder(rows, Active(userId, round));
      tickets := Select(rows, Active(userId, round));
    }

    method DeactivateAllUserTickets(userId: string, round: int) returns (tickets: seq<Ticket>)
      requires Numbered(rows)
      modifies this
      ensures rows == Deactivate(old(rows), Active(userId, round))
      ensures tickets == Inactive(Select(old(rows), Active(userId, round)))
    {
      tickets := ListUserTickets(userId, round);
      if |tickets| == 0 {
        NothingToDeactivate(rows, Active(userId, round));
        return [];
      }
      rows := Deactivate(rows, Active(userId, round));
      tickets := Inactive(tickets);
    }

    method DeactivateTicketLines(userId: string, round: int, lineNos: seq<int>) returns (tickets: seq<Ticket>)
      modifies this
      ensures rows == Deactivate(old(rows), Query(Trim(userId), round, None, Some(Elements(lineNos))))
      ensures tickets == Inactive(Select(old(rows), Query(Trim(userId), round, None, Some(Elements(lineNos)))))
    {
      var sorted := UniqueSortedInts(lineNos);
      var q := Query(Trim(userId), round, None, Some(Elements(sorted)));
      if |sorted| == 0 {
        SelectNone(rows, q);
        NothingToDeactivate(rows, q);
        return [];
      }
      tickets := Select(rows, q);
      if |tickets| == 0 {
        NothingToDeactivate(rows, q);
        return [];
      }
      rows := Deactivate(rows, q);
      tickets := Inactive(tickets);
    }
  }

  lemma {:induction false} NothingToDeactivate(rows: Rows, q: Query)
    requires Select(rows, q) == []
    ensures Deactivate(rows, q) == rows && Inactive(Select(rows, q)) == []
  {
    forall i | 0 <= i < |rows| ensures !Hit(q, rows[i]) {
      SelectMembers(rows, q, rows[i]);
    }
  }

  /** Tickets numbered from the next line on always fit. */
  lemma NewTicketsFit(rows: Rows, user: string, round: int, sets: seq<seq<int>>, source: Source)
    ensures var added := NewTickets(user, round, MaxLine(rows, Trim(user), round) + 1, sets, source);
            Stored(added) == added && Fits(rows, added)
  {
    TrimTwice(user);
    MaxLineIsLargest(rows, Trim(user), round);
  }

  // ---------- the service ----------

  function BySource(tickets: seq<Ticket>, source: Source): seq<Ticket> {
    if tickets == [] then []
    else
      var last := tickets[|tickets| - 1];
      BySource(tickets[..|tickets| - 1], source) + if last.source == source then [last] else []
  }

  lemma {:induction false} BySourceOfActive(rows: Rows, user: string, round: int, source: Source)
    ensures BySource(Select(rows, Active(user, round)), source) == Select(rows, Query(Trim(user), round, Some(source), None))
  {
    if rows != [] {
      BySourceOfActive(rows[..|rows| - 1], user, round, source);
      var front, last := Select(rows[..|rows| - 1], Active(user, round)), rows[|rows| - 1];
      if Hit(Active(user, round), last) {
        assert (front + [last])[..|front|] == front;
      } else {
        assert front + [] == front;
      }
    }
  }

  class Service {
    const repo: TicketStore

    constructor (repo: TicketStore)
      ensures this.repo == repo
    {
      this.repo := repo;
    }

    /** The tickets of one source; the list is in line order already, so sorting it does nothing. */
    method FilterTicketsBySource(tickets: seq<Ticket>, source: Source) returns (filtered: seq<Ticket>)
      ensures filtered == BySource(tickets, source)
    {
      filtered := [];
      for k := 0 to |tickets|
        invariant filtered == BySource(tickets[..k], source)
      {
        assert tickets[..k + 1][..k] == tickets[..k];
        if tickets[k].source == source {
          filtered := filtered + [tickets[k]];
        }
      }
      assert tickets[..|tickets|] == tickets;
    }

    /** Inserts a ticket for each set from the next line on; the unique index never refuses. */
    method InsertNext(user: string, round: int, sets: seq<seq<int>>, source: Source) returns (r: Option<seq<Ticket>>)
      modifies repo
      ensures r == Some(NewTickets(user, round, MaxLine(old(repo.rows), Trim(user), round) + 1, sets, source))
      ensures repo.rows == old(repo.rows) + NewTickets(user, round, MaxLine(old(repo.rows), Trim(user), round) + 1, sets, source)
    {
      NewTicketsFit(repo.rows, user, round, sets, source);
      var nextLineNo := repo.NextLineNo(user, round);
      var tickets := NewTickets(user, round, nextLineNo, sets, source);
      var ok := repo.InsertTickets(tickets);
      r := if ok then Some(tickets) else None;
    }

    /** `picks` are the five sets the generator makes. */
    method Recommend(user: string, round: Option<int>, picks: seq<seq<int>>) returns (r: Answer)
      requires Numbered(repo.rows)
      modifies repo
      ensures repo.rows == Apply(old(repo.rows), Op.Recommend(user, round, picks))
      ensures r == Reply(old(repo.rows), Op.Recommend(user, round, picks))
    {
      if round == None {
        assert repo.rows + [] == repo.rows;
        return Unavailable;
      }
      var tickets := RecommendFor(user, round.value, picks);
      r := Tickets(tickets);
    }

    method ListRecommended(user: string, round: int) returns (recommended: seq<Ticket>)
      requires Numbered(repo.rows)
      ensures recommended == Select(repo.rows, ActiveRecommended(user, round))
    {
      var existing := repo.ListUserTickets(user, round);
      BySourceOfActive(repo.rows, user, round, Recommended);
      recommended := FilterTicketsBySource(existing, Recommended);
    }

    method RecommendFor(user: string, round: int, picks: seq<seq<int>>) returns (tickets: seq<Ticket>)
      requires Numbered(repo.rows)
      modifies repo
      ensures repo.rows == old(repo.rows) + NewPicks(old(repo.rows), user, round, picks)
      ensures tickets == Select(old(repo.rows), ActiveRecommended(user, round)) + NewPicks(old(repo.rows), user, round, picks)
    {
      var recommended := ListRecommended(user, round);
      if |recommended| > 0 {
        assert repo.rows + [] == repo.rows && recommended + [] == recommended;
        return recommended;
      }
      var inserted := InsertNext(user, round, picks, Recommended);
      tickets := inserted.value;
      assert [] + tickets == tickets;
    }

    method RegisterManual(user: string, round: Option<int>, values: seq<int>) returns (r: Answer)
      requires Numbered(repo.rows)
      modifies repo
      ensures repo.rows == Apply(old(repo.rows), Register(user, round, values))
      ensures r == Reply(old(repo.rows), Register(user, round, values))
    {
      var sets := NormalizeManualNumberSets(values);
      assert (sets == None || round == None) ==> repo.rows + [] == repo.rows;
      if sets == None {
        return InvalidNumbers;
      }
      if round == None {
        return Unavailable;
      }
      var existing := repo.ListUserTickets(user, round.value);
      var added := InsertNext(user, round.value, sets.value, Manual);
      r := Added(|existing| + |added.value|, added.value);
    }

    method DeleteMine(user: string, round: Option<int>, line: Option<int>) returns (r: Answer)
      requires Numbered(repo.rows)
      modifies repo
      ensures repo.rows == Apply(old(repo.rows), Delete(user, round, line))
      ensures r == Reply(old(repo.rows), Delete(user, round, line))
    {
      if round == None {
        return Unavailable;
      }
      var deleted: seq<Ticket>;
      if line == None {
        deleted := repo.DeactivateAllUserTickets(user, round.value);
      } else {
        assert Elements([line.value]) == {line.value};
        deleted := repo.DeactivateTicketLines(user, round.value, [line.value]);
      }
      r := Deleted(deleted);
    }
  }
}
