/** What the account statements read from the ledger mean. */
module Views {
  import opened Domain
  import opened Books
  import opened Int64

  // ── Sorting (the role of sort.Slice: some ordered permutation) ────────────

  predicate OrderedBy<T>(s: seq<T>, key: T -> int) {
    forall i, j :: 0 <= i < j < |s| ==> key(s[i]) <= key(s[j])
  }

  function InsertBy<T>(s: seq<T>, x: T, key: T -> int): (r: seq<T>)
    ensures multiset(r) == multiset(s) + multiset{x} && |r| == |s| + 1
    ensures forall y <- r :: y == x || y in s
  {
    if s == [] || key(s[|s| - 1]) <= key(x) then s + [x]
    else
      assert s == s[..|s| - 1] + [s[|s| - 1]];
      InsertBy(s[..|s| - 1], x, key) + [s[|s| - 1]]
  }

  lemma {:induction false} InsertKeepsOrder<T>(s: seq<T>, x: T, key: T -> int)
    requires OrderedBy(s, key)
    ensures OrderedBy(InsertBy(s, x, key), key)
  {
    if s == [] || key(s[|s| - 1]) <= key(x) {
    } else {
      InsertKeepsOrder(s[..|s| - 1], x, key);
      var init := InsertBy(s[..|s| - 1], x, key);
      assert forall y <- init :: key(y) <= key(s[|s| - 1]);
      assert InsertBy(s, x, key) == init + [s[|s| - 1]];
    }
  }

  function SortBy<T>(s: seq<T>, key: T -> int): (r: seq<T>)
    ensures OrderedBy(r, key) && multiset(r) == multiset(s) && |r| == |s|
  {
    if s == [] then []
    else
      assert s == s[..|s| - 1] + [s[|s| - 1]];
      var init := SortBy(s[..|s| - 1], key);
      InsertKeepsOrder(init, s[|s| - 1], key);
      InsertBy(init, s[|s| - 1], key)
  }

  // ── Statements ────────────────────────────────────────────────────────────

  /** One money movement on the account, as printed on a statement line. */
  datatype Movement = Movement(at: int, debit: int, credit: int)

  datatype Line = Line(movement: Movement, running: int)

  datatype Statement = Statement(opening: int, closing: int, lines: seq<Line>)

  function MovementOf(r: Row): Movement {
    if r.entry.direction == Credit then Movement(r.at, 0, r.entry.amount) else Movement(r.at, r.entry.amount, 0)
  }

  datatype Part = Net | CreditPart | DebitPart

  function PartOf(m: Movement, part: Part): int {
    match part
    case Net => m.credit - m.debit
    case CreditPart => m.credit
    case DebitPart => m.debit
  }

  /** What the first n movements add up to. */
  function Total(ms: seq<Movement>, n: nat, part: Part := Net): int
    requires n <= |ms|
  {
    if n == 0 then 0 else Total(ms, n - 1, part) + PartOf(ms[n - 1], part)
  }

  /** The movements of one account with from <= time < to, in posting order. */
  function Window(rows: seq<Row>, a: Account, from: int, to: int): seq<Movement> {
    if rows == [] then []
    else
      var r := rows[|rows| - 1];
      Window(rows[..|rows| - 1], a, from, to) + if r.entry.account == a && from <= r.at < to then [MovementOf(r)] else []
  }

  /** The lines for some movements: each carries the opening balance plus the
      movements up to and including it. */
  function Print(ms: seq<Movement>, opening: int): seq<Line> {
    if ms == [] then []
    else Print(ms[..|ms| - 1], opening) + [Line(ms[|ms| - 1], Wrap(opening + Total(ms, |ms|)))]
  }

  predicate TimeOrdered(ms: seq<Movement>) { forall i, j :: 0 <= i < j < |ms| ==> ms[i].at <= ms[j].at }

  /** A correct statement: it opens at the balance before `from`, prints the movements
      `ms` of [from, to) in time order with exact running balances, and closes at the last. */
  ghost predicate IsStatement(s: Statement, ms: seq<Movement>, rows: seq<Row>, a: Account, from: int, to: int) {
    && s.opening == Wrap(Sum(rows, BalanceBefore(a, from)))
    && multiset(ms) == multiset(Window(rows, a, from, to))
    && TimeOrdered(ms)
    && s.lines == Print(ms, s.opening)
    && s.closing == Wrap(s.opening + Total(ms, |ms|))
  }

  lemma {:induction false} TotalAppend(a: seq<Movement>, b: seq<Movement>, n: nat, part: Part := Net)
    requires n <= |a| + |b|
    ensures Total(a + b, n, part)
         == if n <= |a| then Total(a, n, part) else Total(a, |a|, part) + Total(b, n - |a|, part)
  {
    if n != 0 { TotalAppend(a, b, n - 1, part); }
  }

  lemma TotalJoin(a: seq<Movement>, b: seq<Movement>, part: Part)
    ensures Total(a + b, |a + b|, part) == Total(a, |a|, part) + Total(b, |b|, part)
  {
    TotalAppend(a, b, |a| + |b|, part);
  }

  lemma TotalOfOne(m: Movement, part: Part)
    ensures Total([m], |[m]|, part) == PartOf(m, part)
  {}

  lemma TotalWithout(l: seq<Movement>, m: Movement, r: seq<Movement>, part: Part)
    ensures Total(l + [m] + r, |l + [m] + r|, part) == Total(l + r, |l + r|, part) + PartOf(m, part)
  {
    hide Total;
    TotalOfOne(m, part);
    TotalJoin(l, r, part);
    TotalJoin(l + [m], r, part);
    TotalJoin(l, [m], part);
  }

  lemma SplitAt<T>(b: seq<T>, x: T) returns (l: seq<T>, r: seq<T>)
    requires x in b
    ensures b == l + [x] + r && multiset(l + r) == multiset(b) - multiset{x}
  {
    var i :| 0 <= i < |b| && b[i] == x;
    l, r := b[..i], b[i + 1..];
    assert b == l + [x] + r;
  }

  /** Reordering movements does not change what they add up to. */
  lemma {:induction false} TotalOfPermutation(a: seq<Movement>, b: seq<Movement>, part: Part := Net)
    requires multiset(a) == multiset(b)
    ensures |a| == |b| && Total(a, |a|, part) == Total(b, |b|, part)
    decreases |a|
  {
    assert |multiset(a)| == |a| && |multiset(b)| == |b|;
    if a != [] {
      var init, last := a[..|a| - 1], a[|a| - 1];
      assert a == init + [last] + [];
      assert last in multiset(b);
      var l, r := SplitAt(b, last);
      assert multiset(init) == multiset(a) - multiset{last};
      TotalOfPermutation(init, l + r, part);
      TotalWithout(l, last, r, part);
      TotalWithout(init, last, [], part);
      assert init + [] == init;
    }
  }

  /** The movements of a window add up to the change of balance across it. */
  lemma {:induction false} WindowTotal(rows: seq<Row>, a: Account, from: int, to: int)
    requires from <= to
    ensures var w := Window(rows, a, from, to);
            Total(w, |w|) == Sum(rows, BalanceBefore(a, to)) - Sum(rows, BalanceBefore(a, from))
  {
    if rows != [] {
      var init, r := rows[..|rows| - 1], rows[|rows| - 1];
      WindowTotal(init, a, from, to);
      var w := Window(init, a, from, to);
      TotalAppend(w, [MovementOf(r)], |w| + 1);
      assert w + [] == w;
    }
  }

  lemma {:induction false} WindowsSplit(rows: seq<Row>, a: Account, from: int, mid: int, to: int)
    requires from <= mid <= to
    ensures multiset(Window(rows, a, from, to)) == multiset(Window(rows, a, from, mid)) + multiset(Window(rows, a, mid, to))
  {
    if rows != [] { WindowsSplit(rows[..|rows| - 1], a, from, mid, to); }
  }

  lemma {:induction false} WindowTimes(rows: seq<Row>, a: Account, from: int, to: int)
    ensures forall m <- Window(rows, a, from, to) :: from <= m.at < to
  {
    if rows != [] { WindowTimes(rows[..|rows| - 1], a, from, to); }
  }

  lemma SameMembers<T>(a: seq<T>, b: seq<T>)
    requires multiset(a) == multiset(b)
    ensures forall x <- a :: x in b
  {
    forall x <- a ensures x in b { assert x in multiset(b); }
  }

  /** A statement closes at the balance of all rows before its end. */
  lemma ClosingIsExact(s: Statement, ms: seq<Movement>, rows: seq<Row>, a: Account, from: int, to: int)
    requires from <= to && IsStatement(s, ms, rows, a, from, to)
    ensures s.closing == Wrap(Sum(rows, BalanceBefore(a, to)))
  {
    hide Total, Window, Sum, Wrap, Print, TimeOrdered;
    TotalOfPermutation(ms, Window(rows, a, from, to));
    WindowTotal(rows, a, from, to);
    WrapAdd(Sum(rows, BalanceBefore(a, from)), Total(ms, |ms|));
  }

  lemma {:induction false} PrintAppend(p1: seq<Movement>, p2: seq<Movement>, opening: int)
    ensures Print(p1 + p2, opening) == Print(p1, opening) + Print(p2, Wrap(opening + Total(p1, |p1|)))
  {
    if p2 == [] {
      assert p1 + p2 == p1;
    } else {
      var init := p2[..|p2| - 1];
      PrintAppend(p1, init, opening);
      assert (p1 + p2)[..|p1 + p2| - 1] == p1 + init;
      TotalAppend(p1, p2, |p1| + |p2|);
      WrapAdd(opening + Total(p1, |p1|), Total(p2, |p2|));
    }
  }

  lemma JoinedCloses(p1: seq<Movement>, p2: seq<Movement>, opening: int)
    ensures Wrap(opening + Total(p1 + p2, |p1 + p2|))
         == Wrap(Wrap(opening + Total(p1, |p1|)) + Total(p2, |p2|))
  {
    TotalAppend(p1, p2, |p1| + |p2|);
    WrapAdd(opening + Total(p1, |p1|), Total(p2, |p2|));
  }

  lemma AdjacentStatementsMeet(
    s1: Statement, p1: seq<Movement>, s2: Statement, p2: seq<Movement>,
    rows: seq<Row>, a: Account, from: int, mid: int, to: int)
    requires from <= mid <= to
    requires IsStatement(s1, p1, rows, a, from, mid) && IsStatement(s2, p2, rows, a, mid, to)
    ensures s1.closing == s2.opening
  {
    hide Total, Print, Window, Sum, Wrap, TimeOrdered;
    ClosingIsExact(s1, p1, rows, a, from, mid);
  }

  lemma JoinedMovements(p1: seq<Movement>, p2: seq<Movement>, rows: seq<Row>, a: Account, from: int, mid: int, to: int)
    requires from <= mid <= to
    requires multiset(p1) == multiset(Window(rows, a, from, mid))
    requires multiset(p2) == multiset(Window(rows, a, mid, to))
    ensures multiset(p1 + p2) == multiset(Window(rows, a, from, to))
  {
    hide Window;
    WindowsSplit(rows, a, from, mid, to);
  }

  /** Two adjacent statements, printed one after the other, are a statement of the
      whole period: movements in time order and every running balance exact. */
  lemma StatementsJoin(
    s1: Statement, p1: seq<Movement>, s2: Statement, p2: seq<Movement>,
    rows: seq<Row>, a: Account, from: int, mid: int, to: int)
    requires from <= mid <= to
    requires IsStatement(s1, p1, rows, a, from, mid) && IsStatement(s2, p2, rows, a, mid, to)
    ensures s1.closing == s2.opening
    ensures IsStatement(Statement(s1.opening, s2.closing, s1.lines + s2.lines), p1 + p2, rows, a, from, to)
  {
    hide Total, Print, Window, Sum, Wrap, TimeOrdered;
    AdjacentStatementsMeet(s1, p1, s2, p2, rows, a, from, mid, to);
    JoinedMovements(p1, p2, rows, a, from, mid, to);
    JoinedInOrder(p1, p2, rows, a, from, mid, to);
    PrintAppend(p1, p2, s1.opening);
    JoinedCloses(p1, p2, s1.opening);
  }

  /** Whatever statement is produced for the whole period, the two halves agree with
      it: same ends and the same movements, at most in another order among equal times. */
  lemma StatementsCompose(
    s1: Statement, p1: seq<Movement>, s2: Statement, p2: seq<Movement>, s: Statement, p: seq<Movement>,
    rows: seq<Row>, a: Account, from: int, mid: int, to: int)
    requires from <= mid <= to
    requires IsStatement(s1, p1, rows, a, from, mid) && IsStatement(s2, p2, rows, a, mid, to)
    requires IsStatement(s, p, rows, a, from, to)
    ensures s.opening == s1.opening && s1.closing == s2.opening && s2.closing == s.closing
    ensures multiset(p1 + p2) == multiset(p)
  {
    ClosingIsExact(s1, p1, rows, a, from, mid);
    ClosingIsExact(s2, p2, rows, a, mid, to);
    ClosingIsExact(s, p, rows, a, from, to);
    WindowsSplit(rows, a, from, mid, to);
  }

  lemma JoinedInOrder(
    p1: seq<Movement>, p2: seq<Movement>, rows: seq<Row>, a: Account, from: int, mid: int, to: int)
    requires TimeOrdered(p1) && TimeOrdered(p2)
    requires multiset(p1) == multiset(Window(rows, a, from, mid))
    requires multiset(p2) == multiset(Window(rows, a, mid, to))
    ensures TimeOrdered(p1 + p2)
  {
    WindowTimes(rows, a, from, mid);
    WindowTimes(rows, a, mid, to);
    SameMembers(p1, Window(rows, a, from, mid));
    SameMembers(p2, Window(rows, a, mid, to));
    assert forall m <- p1 :: m.at < mid;
    assert forall m <- p2 :: mid <= m.at;
  }

  lemma {:induction false} AllBefore(rows: seq<Row>, a: Account, t: int)
    requires forall r <- rows :: r.entry.account == a ==> r.at < t
    ensures Sum(rows, BalanceBefore(a, t)) == Sum(rows, Balance(a))
  {
    if rows != [] { AllBefore(rows[..|rows| - 1], a, t); }
  }

  /** A statement that reaches past the last row closes at the current balance. */
  lemma ClosingPastTheEnd(s: Statement, ms: seq<Movement>, rows: seq<Row>, a: Account, from: int, to: int)
    requires from <= to && IsStatement(s, ms, rows, a, from, to)
    requires forall r <- rows :: r.entry.account == a ==> r.at < to
    ensures s.closing == Wrap(Sum(rows, Balance(a)))
  {
    ClosingIsExact(s, ms, rows, a, from, to);
    AllBefore(rows, a, to);
  }

  // ── A statement line by line ──────────────────────────────────────────────

  lemma {:induction false} PrintedLines(ms: seq<Movement>, opening: int)
    ensures var lines := Print(ms, opening);
            && |lines| == |ms|
            && forall i :: 0 <= i < |ms| ==> lines[i] == Line(ms[i], Wrap(opening + Total(ms, i + 1)))
  {
    if ms != [] {
      var init, last := ms[..|ms| - 1], ms[|ms| - 1];
      PrintedLines(init, opening);
      assert init + [last] == ms;
      forall i | 0 <= i < |init| ensures Print(init, opening)[i] == Line(ms[i], Wrap(opening + Total(ms, i + 1))) {
        TotalAppend(init, [last], i + 1);
      }
    }
  }

  /** A statement has one line for each movement of the period, in order; a line's running
      balance is the opening balance plus every movement up to and including its own; and the
      last line shows the closing balance, which is the opening one when there are no lines. */
  lemma StatementLines(s: Statement, ms: seq<Movement>, rows: seq<Row>, a: Account, from: int, to: int)
    requires IsStatement(s, ms, rows, a, from, to)
    ensures |s.lines| == |ms|
    ensures forall i :: 0 <= i < |ms| ==>
              s.lines[i].movement == ms[i] && s.lines[i].running == Wrap(s.opening + Total(ms, i + 1))
    ensures s.closing == if ms == [] then s.opening else s.lines[|ms| - 1].running
  {
    hide Print, Window, Wrap, TimeOrdered, Sum;
    PrintedLines(ms, s.opening);
    if ms == [] { WrapOfWrap(Sum(rows, BalanceBefore(a, from))); }
  }

  lemma WrapOfWrap(x: int)
    ensures Wrap(Wrap(x)) == Wrap(x)
  {
    WrapAdd(x, 0);
  }

  /** A movement is its row: a credit row raises the running balance by its amount, a debit
      row lowers it. */
  lemma MovementOfRow(r: Row)
    ensures var m := MovementOf(r);
            && m.at == r.at
            && m.credit == (if r.entry.direction == Credit then r.entry.amount else 0)
            && m.debit == (if r.entry.direction == Debit then r.entry.amount else 0)
  {}

  // ── Statements in machine integers ────────────────────────────────────────

  lemma {:induction false} WindowBounds(rows: seq<Row>, a: Account, from: int, to: int)
    requires forall r <- rows :: r.entry.amount >= 0
    ensures forall m <- Window(rows, a, from, to) :: m.credit >= 0 && m.debit >= 0
    ensures var w := Window(rows, a, from, to);
            && Sum(rows, BalanceBefore(a, from)) + Total(w, |w|, CreditPart) <= Sum(rows, Credits)
            && Sum(rows, BalanceBefore(a, from)) - Total(w, |w|, DebitPart) >= -Sum(rows, Debits)
  {
    if rows != [] {
      var init, r := rows[..|rows| - 1], rows[|rows| - 1];
      WindowBounds(init, a, from, to);
      var w := Window(init, a, from, to);
      TotalAppend(w, [MovementOf(r)], |w| + 1, CreditPart);
      TotalAppend(w, [MovementOf(r)], |w| + 1, DebitPart);
      assert w + [] == w;
    }
  }

  lemma {:induction false} PrefixBounds(ms: seq<Movement>, n: nat, last: nat)
    requires n <= last <= |ms| && forall m <- ms :: m.credit >= 0 && m.debit >= 0
    ensures -Total(ms, last, DebitPart) <= Total(ms, n) <= Total(ms, last, CreditPart)
    decreases last
  {
    if n < last {
      PrefixBounds(ms, n, last - 1);
    } else if n > 0 {
      PrefixBounds(ms, n - 1, n - 1);
    }
  }

  /** In a sound book whose posted total stays below 2^63, a statement's opening balance and
      all its running balances fit a 64-bit integer although they are added up in time
      order: none is ever wrapped. */
  lemma RunningBalancesFit(s: Statement, ms: seq<Movement>, b: Book, a: Account, from: int, to: int, n: nat)
    requires Sound(b) && Bounded(b) && IsStatement(s, ms, b.rows, a, from, to) && n <= |ms|
    ensures s.opening == Sum(b.rows, BalanceBefore(a, from))
    ensures Fits(s.opening + Total(ms, n))
  {
    hide Window, Total, Sum, Balanced;
    var w := Window(b.rows, a, from, to);
    BalanceFits(b, BalanceBefore(a, from));
    WindowBounds(b.rows, a, from, to);
    SameMembers(ms, w);
    PrefixBounds(ms, n, |ms|);
    TotalOfPermutation(ms, w, CreditPart);
    TotalOfPermutation(ms, w, DebitPart);
  }
}
