/** What the ticket operations answer and store, ticket by ticket. */
module LottoAnswers {
  import opened Options
  import opened Text
  import opened LottoNumbers
  import opened LottoTickets
  import opened Sublists

  // ---------- what a query finds ----------

  lemma {:induction false} SelectIsPart(rows: Rows, q: Query)
    ensures IsPart(rows, (t: Ticket) => Hit(q, t), Select(rows, q))
  {
    var wanted := (t: Ticket) => Hit(q, t);
    if rows == [] {
      NoPart(wanted);
    } else {
      var n := |rows| - 1;
      SelectIsPart(rows[..n], q);
      PartAppend(rows[..n], rows[n], wanted, Select(rows[..n], q));
      assert rows[..n] + [rows[n]] == rows;
    }
  }

  lemma SamePart<T(!new)>(all: seq<T>, p: T -> bool, q: T -> bool, part: seq<T>)
    requires IsPart(all, p, part) && forall x :: p(x) == q(x)
    ensures IsPart(all, q, part)
  {
    var at :| Places(all, p, part, at);
    assert Places(all, q, part, at);
  }

  /** The user's active lines of a round. */
  predicate Mine(t: Ticket, user: string, round: int) {
    t.active && t.userId == Trim(user) && t.round == round
  }

  /** max is the largest line number of the user's tickets of the round, deleted ones included. */
  ghost predicate LargestLine(rows: Rows, user: string, round: int, max: nat) {
    && (forall i :: 0 <= i < |rows| && rows[i].userId == Trim(user) && rows[i].round == round ==> rows[i].lineNo <= max)
    && (max > 0 ==> exists i :: 0 <= i < |rows| && rows[i].userId == Trim(user) && rows[i].round == round && rows[i].lineNo == max)
  }

  lemma MaxIsLargest(rows: Rows, user: string, round: int, max: nat)
    requires LargestLine(rows, user, round, max)
    ensures MaxLine(rows, Trim(user), round) == max
  {
    MaxLineIsLargest(rows, Trim(user), round);
  }

  // ---------- recommending ----------

  /** A row that recommending finds. */
  predicate Recommends(t: Ticket, user: string, round: int) {
    Mine(t, user, round) && t.source == Recommended
  }

  lemma NoneRecommended(rows: Rows, user: string, round: int)
    requires forall i :: 0 <= i < |rows| ==> !Recommends(rows[i], user, round)
    ensures Select(rows, ActiveRecommended(user, round)) == []
  {
    SelectNone(rows, ActiveRecommended(user, round));
  }

  lemma RecommendsNew(rows: Rows, op: Op, max: nat)
    requires op.Recommend? && op.round.Some? && MaxLine(rows, Trim(op.user), op.round.value) == max
    requires Select(rows, ActiveRecommended(op.user, op.round.value)) == []
    ensures Reply(rows, op) == Tickets(NewTickets(op.user, op.round.value, max + 1, op.picks, Recommended))
    ensures Apply(rows, op) == rows + Reply(rows, op).tickets
  {
    assert Inserted(rows, op) == NewTickets(op.user, op.round.value, max + 1, op.picks, Recommended);
    assert [] + Inserted(rows, op) == Inserted(rows, op);
  }

  lemma SomeRecommended(rows: Rows, user: string, round: int, i: nat)
    requires i < |rows| && Recommends(rows[i], user, round)
    ensures Select(rows, ActiveRecommended(user, round)) != []
  {
    SelectMembers(rows, ActiveRecommended(user, round), rows[i]);
  }

  lemma RecommendsOld(rows: Rows, op: Op)
    requires op.Recommend? && op.round.Some? && Select(rows, ActiveRecommended(op.user, op.round.value)) != []
    ensures Apply(rows, op) == rows
    ensures Reply(rows, op) == Tickets(Select(rows, ActiveRecommended(op.user, op.round.value)))
  {
    assert Inserted(rows, op) == [];
    assert Select(rows, ActiveRecommended(op.user, op.round.value)) + []
        == Select(rows, ActiveRecommended(op.user, op.round.value));
    assert rows + [] == rows;
  }

  lemma SelectRecommends(rows: Rows, user: string, round: int)
    ensures IsPart(rows, (t: Ticket) => Recommends(t, user, round), Select(rows, ActiveRecommended(user, round)))
  {
    var q := ActiveRecommended(user, round);
    SelectIsPart(rows, q);
    SamePart(rows, (t: Ticket) => Hit(q, t), (t: Ticket) => Recommends(t, user, round), Select(rows, q));
  }

  /** Main result: without an active recommended line the user gets five new ones, with the five
      generated sets in order, numbered on from the user's largest line of the round; they are
      returned and appended to the table. With some, those are returned in table order and nothing
      is stored. */
  lemma RecommendAnswers(rows: Rows, op: Op, user: string, round: int, picks: seq<seq<int>>, max: nat)
    requires op == Recommend(user, Some(round), picks) && ValidOp(op) && LargestLine(rows, user, round, max)
    ensures Reply(rows, op).Tickets?
    ensures (forall i :: 0 <= i < |rows| ==> !Recommends(rows[i], user, round)) ==>
              && |Reply(rows, op).tickets| == 5
              && (forall i :: 0 <= i < 5 ==>
                    Reply(rows, op).tickets[i] == Ticket(Trim(user), round, max + 1 + i, picks[i], Recommended, true))
              && Apply(rows, op) == rows + Reply(rows, op).tickets
    ensures (exists i :: 0 <= i < |rows| && Recommends(rows[i], user, round)) ==>
              && Apply(rows, op) == rows
              && IsPart(rows, (t: Ticket) => Recommends(t, user, round), Reply(rows, op).tickets)
  {
    if i :| 0 <= i < |rows| && Recommends(rows[i], user, round) {
      SomeRecommended(rows, user, round, i);
      RecommendsOld(rows, op);
      SelectRecommends(rows, user, round);
    } else {
      MaxIsLargest(rows, user, round, max);
      NoneRecommended(rows, user, round);
      RecommendsNew(rows, op, max);
    }
  }

  // ---------- registering ----------

  /** The numbers of line g, as they were typed. */
  function Typed(values: seq<int>, g: nat): (r: seq<int>)
    requires 6 * g + 6 <= |values|
    ensures |r| == 6 && forall k :: 0 <= k < 6 ==> r[k] == values[6 * g + k]
  {
    values[6 * g..6 * g + 6]
  }

  lemma SixthOf(values: seq<int>, g: nat)
    requires ValidValues(values) && g < |values| / 6
    ensures 6 * g + 6 <= |values|
    ensures ValidSet(Typed(values, g))
  {
    assert Typed(values, g) == Six(values, g);
  }

  lemma NumberSetIs(values: seq<int>, g: nat)
    requires ValidValues(values) && g < |values| / 6
    ensures 6 * g + 6 <= |values|
    ensures IsNumbers(NumberSets(values)[g]) && Elements(NumberSets(values)[g]) == Elements(Typed(values, g))
  {
    SixthOf(values, g);
    NormalizedSetIsNumbers(Six(values, g));
    NormalizeElements(Six(values, g));
  }

  /** A new manual line: the g-th, on from the user's largest, with the g-th six numbers in order. */
  ghost predicate IsManualLine(t: Ticket, user: string, round: int, max: nat, values: seq<int>, g: nat) {
    && t.userId == Trim(user) && t.round == round && t.lineNo == max + 1 + g
    && t.source == Manual && t.active
    && 6 * g + 6 <= |values|
    && Increasing(t.numbers) && Elements(t.numbers) == Elements(Typed(values, g))
  }

  /** Values that come in sixes of different numbers of 1 to 45. */
  ghost predicate InSixes(values: seq<int>) {
    && |values| > 0 && |values| % 6 == 0
    && (forall i :: 0 <= i < |values| ==> 1 <= values[i] <= 45)
    && (forall i, j :: 0 <= i < j < |values| && i / 6 == j / 6 ==> values[i] != values[j])
  }

  lemma InSixesIffValid(values: seq<int>)
    ensures InSixes(values) <==> ValidValues(values)
  {
    if InSixes(values) {
      forall g | 0 <= g < |values| / 6 ensures ValidSet(Six(values, g)) {
        forall k, m | 0 <= k < m < 6 ensures Six(values, g)[k] != Six(values, g)[m] {
          assert (6 * g + k) / 6 == g == (6 * g + m) / 6;
        }
      }
    }
    if ValidValues(values) {
      forall i | 0 <= i < |values| ensures 1 <= values[i] <= 45 {
        AtOf(values, i);
      }
      forall i, j | 0 <= i < j < |values| && i / 6 == j / 6 ensures values[i] != values[j] {
        AtOf(values, i);
        AtOf(values, j);
      }
    }
  }

  lemma AtOf(values: seq<int>, i: nat)
    requires ValidValues(values) && i < |values|
    ensures 6 * (i / 6) + 6 <= |values| && ValidSet(Six(values, i / 6)) && values[i] == Six(values, i / 6)[i % 6]
  {
    assert i / 6 < |values| / 6;
    assert i == 6 * (i / 6) + i % 6;
  }

  /** Main result: values that come in sixes of different numbers of 1 to 45 become one line each, in
      the order typed and with the numbers in increasing order, numbered on from the user's largest
      line; they are returned and appended, and the total is the active lines before and these.
      Anything else is refused and nothing is stored. */
  lemma RegisterAnswers(rows: Rows, user: string, round: int, values: seq<int>, max: nat, active: seq<Ticket>)
    requires LargestLine(rows, user, round, max)
    requires IsPart(rows, (t: Ticket) => Mine(t, user, round), active)
    ensures var op := Register(user, Some(round), values);
            if InSixes(values) then
              && Reply(rows, op).Added? && |Reply(rows, op).added| == |values| / 6
              && Reply(rows, op).total == |active| + |values| / 6
              && Apply(rows, op) == rows + Reply(rows, op).added
              && (forall g :: 0 <= g < |values| / 6 ==> IsManualLine(Reply(rows, op).added[g], user, round, max, values, g))
            else Reply(rows, op) == InvalidNumbers && Apply(rows, op) == rows
  {
    var op := Register(user, Some(round), values);
    InSixesIffValid(values);
    if InSixes(values) {
      MaxIsLargest(rows, user, round, max);
      SelectIsPart(rows, Active(user, round));
      SamePart(rows, (t: Ticket) => Hit(Active(user, round), t), (t: Ticket) => Mine(t, user, round), Select(rows, Active(user, round)));
      PartIsUnique(rows, (t: Ticket) => Mine(t, user, round), Select(rows, Active(user, round)), active);
      forall g | 0 <= g < |values| / 6 ensures IsManualLine(Reply(rows, op).added[g], user, round, max, values, g) {
        NumberSetIs(values, g);
      }
    } else {
      assert rows + [] == rows;
    }
  }

  /** Without a round nothing is stored, and bad numbers are told first. */
  lemma WithoutRound(rows: Rows, op: Op)
    requires op.round == None
    ensures Apply(rows, op) == rows
    ensures Reply(rows, op) == if op.Register? && !InSixes(op.values) then InvalidNumbers else Unavailable
  {
    if op.Register? { InSixesIffValid(op.values); }
    assert rows + [] == rows;
  }

  // ---------- deleting ----------

  /** A line that deleting takes: the user's, of the round, active, and the one named if one is. */
  predicate Taken(t: Ticket, user: string, round: int, line: Option<int>) {
    Mine(t, user, round) && (line == None || t.lineNo == line.value)
  }

  /** Main result: deleting makes exactly the user's active lines of the round inactive, or the one
      named, whatever their source, and answers with them in table order. */
  lemma DeleteAnswers(rows: Rows, user: string, round: int, line: Option<int>, taken: seq<Ticket>)
    requires IsPart(rows, (t: Ticket) => Taken(t, user, round, line), taken)
    ensures var op := Delete(user, Some(round), line);
            && |Apply(rows, op)| == |rows|
            && (forall i :: 0 <= i < |rows| ==>
                  Apply(rows, op)[i] == if Taken(rows[i], user, round, line) then rows[i].(active := false) else rows[i])
            && Reply(rows, op).Deleted? && |Reply(rows, op).lines| == |taken|
            && (forall k :: 0 <= k < |taken| ==> Reply(rows, op).lines[k] == taken[k].(active := false))
  {
    var q := LottoTickets.Query(Trim(user), round, None, Lines(line));
    SelectIsPart(rows, q);
    SamePart(rows, (t: Ticket) => Hit(q, t), (t: Ticket) => Taken(t, user, round, line), Select(rows, q));
    PartIsUnique(rows, (t: Ticket) => Taken(t, user, round, line), Select(rows, q), taken);
  }
}
