/** Per-user contribution counters and the table that accumulates them. */
module Stats {
  import opened Text

  /** `userStats`: one user's merged pull requests, closed issues and reviews. */
  datatype Counters = Counters(pulls: nat, issues: nat, reviews: nat)

  const ZERO := Counters(0, 0, 0)

  /** The three kinds of contribution the table counts. */
  datatype Kind = PullKind | IssueKind | ReviewKind

  /**
   * Twice `sum()`: a pull request weighs 1, a review or an issue 0.5, so doubling keeps
   * the score a natural number.
   */
  function Score2(c: Counters): nat {
    2 * c.pulls + c.reviews + c.issues
  }

  function Weight(k: Kind): nat {
    if k == PullKind then 2 else 1
  }

  /** One more contribution of kind `k`: exactly that counter goes up by one. */
  function Incr(c: Counters, k: Kind): (d: Counters)
    ensures d.pulls == c.pulls + (if k == PullKind then 1 else 0)
    ensures d.issues == c.issues + (if k == IssueKind then 1 else 0)
    ensures d.reviews == c.reviews + (if k == ReviewKind then 1 else 0)
    ensures Score2(d) == Score2(c) + Weight(k)
  {
    match k
    case PullKind => c.(pulls := c.pulls + 1)
    case IssueKind => c.(issues := c.issues + 1)
    case ReviewKind => c.(reviews := c.reviews + 1)
  }

  /** A user's counters, zero for a user not in the table. */
  function Lookup(t: map<string, Counters>, user: string): Counters {
    if user in t then t[user] else ZERO
  }

  /** The table after crediting `user` with one contribution of kind `k`. */
  function Credit(t: map<string, Counters>, user: string, k: Kind): (t': map<string, Counters>)
    ensures t'.Keys == t.Keys + {user}
    ensures Lookup(t', user) == Incr(Lookup(t, user), k)
  {
    t[user := Incr(Lookup(t, user), k)]
  }

  /** Crediting one user leaves every other user's counters as they were. */
  lemma CreditLookup(t: map<string, Counters>, user: string, k: Kind, u: string)
    ensures Lookup(Credit(t, user, k), u) == if u == user then Incr(Lookup(t, u), k) else Lookup(t, u)
  {
  }

  /** Every stored record holds at least one contribution: a user enters the table only when credited. */
  predicate NoZeroRecord(t: map<string, Counters>) {
    forall u :: u in t ==> t[u] != ZERO
  }

  /** Crediting keeps every stored record non-zero. */
  lemma CreditKeepsNoZero(t: map<string, Counters>, user: string, k: Kind)
    requires NoZeroRecord(t)
    ensures NoZeroRecord(Credit(t, user, k))
  {
    var t' := Credit(t, user, k);
    assert Score2(t'[user]) > 0;
    forall u | u in t' && u != user
      ensures t'[u] != ZERO
    {
      assert t'[u] == t[u];
    }
  }

  /** `usersStats`: the table, updated in place. */
  class UsersStats {
    var table: map<string, Counters>

    constructor ()
      ensures table == map[]
    {
      table := map[];
    }

    /** `get`: the user's record, inserting a zero record for a new user. */
    method Get(user: string) returns (c: Counters)
      modifies this
      ensures c == Lookup(old(table), user)
      ensures user !in old(table) ==> c == ZERO
      ensures table == old(table)[user := c]
    {
      if user !in table {
        table := table[user := ZERO];
      }
      c := table[user];
    }

    method Review(name: string)
      modifies this
      ensures table == Credit(old(table), name, ReviewKind)
    {
      var us := Get(name);
      assert us.(reviews := us.reviews + 1) == Incr(Lookup(old(table), name), ReviewKind);
      table := table[name := us.(reviews := us.reviews + 1)];
    }

    method Pull(name: string)
      modifies this
      ensures table == Credit(old(table), name, PullKind)
    {
      var us := Get(name);
      assert us.(pulls := us.pulls + 1) == Incr(Lookup(old(table), name), PullKind);
      table := table[name := us.(pulls := us.pulls + 1)];
    }

    method Issue(name: string)
      modifies this
      ensures table == Credit(old(table), name, IssueKind)
    {
      var us := Get(name);
      assert us.(issues := us.issues + 1) == Incr(Lookup(old(table), name), IssueKind);
      table := table[name := us.(issues := us.issues + 1)];
    }
  }

  // ---------------------------------------------------------------------------
  // Rendering

  /** `String()`: "pr=<pulls> rev=<reviews> tic=<issues>". */
  function Render(c: Counters): string {
    "pr=" + (Decimal(c.pulls) + (" rev=" + (Decimal(c.reviews) + (" tic=" + Decimal(c.issues)))))
  }

  lemma DropCommonPrefix(p: string, x: string, y: string)
    requires p + x == p + y
    ensures x == y
  {
    assert x == (p + x)[|p|..];
    assert y == (p + y)[|p|..];
  }

  /** Different counters never render alike, so the rendering can be read back. */
  lemma RenderInjective(a: Counters, b: Counters)
    requires Render(a) == Render(b)
    ensures a == b
  {
    var tailA := " tic=" + Decimal(a.issues);
    var tailB := " tic=" + Decimal(b.issues);
    var restA := " rev=" + (Decimal(a.reviews) + tailA);
    var restB := " rev=" + (Decimal(b.reviews) + tailB);
    DropCommonPrefix("pr=", Decimal(a.pulls) + restA, Decimal(b.pulls) + restB);
    DigitsThenOther(Decimal(a.pulls), restA, Decimal(b.pulls), restB);
    DecimalInjective(a.pulls, b.pulls);
    DropCommonPrefix(" rev=", Decimal(a.reviews) + tailA, Decimal(b.reviews) + tailB);
    DigitsThenOther(Decimal(a.reviews), tailA, Decimal(b.reviews), tailB);
    DecimalInjective(a.reviews, b.reviews);
    DropCommonPrefix(" tic=", Decimal(a.issues), Decimal(b.issues));
    DecimalInjective(a.issues, b.issues);
  }

  /**
   * `%f` of `sum()`: the whole part, then ".000000" or ".500000". (The score is a
   * multiple of one half, which a float32 holds exactly while it is below 2^23.)
   */
  function ScoreText(c: Counters): string {
    Decimal(Score2(c) / 2) + (if Score2(c) % 2 == 0 then ".000000" else ".500000")
  }

  /** The printed score reads back as half of `Score2`. */
  lemma ScoreTextReadsBack(c: Counters)
    ensures var s := ScoreText(c);
            var k := |s| - 7;
            k > 0 && s[k] == '.' && AllDigits(s[..k])
            && ParseDecimal(s[..k]) * 2 + (if s[k + 1..] == "500000" then 1 else 0) == Score2(c)
  {
    var whole := Decimal(Score2(c) / 2);
    var fraction := if Score2(c) % 2 == 0 then ".000000" else ".500000";
    var s := ScoreText(c);
    assert s == whole + fraction;
    assert s[..|whole|] == whole;
    assert s[|whole|..] == fraction;
    assert s[|whole| + 1..] == fraction[1..];
    ParseDecimalOfDecimal(Score2(c) / 2);
  }

  /** One printed line of the contributors' statistics. */
  function ReportLine(name: string, c: Counters): string {
    name + " - " + Render(c) + " (" + ScoreText(c) + ")"
  }

  /** The rendering followed by any text, regrouped to the right. */
  lemma RenderThen(c: Counters, tail: string)
    ensures Render(c) + tail
            == "pr=" + (Decimal(c.pulls) + (" rev=" + (Decimal(c.reviews) + (" tic=" + (Decimal(c.issues) + tail)))))
  {
  }

  /** Counters rendered in front of text that starts with a non-digit can be read back. */
  lemma RenderThenInjective(a: Counters, b: Counters, endA: string, endB: string)
    requires |endA| > 0 && |endB| > 0 && !IsDigit(endA[0]) && !IsDigit(endB[0])
    requires Render(a) + endA == Render(b) + endB
    ensures a == b
  {
    RenderThen(a, endA);
    RenderThen(b, endB);
    var tailA := " tic=" + (Decimal(a.issues) + endA);
    var tailB := " tic=" + (Decimal(b.issues) + endB);
    var restA := " rev=" + (Decimal(a.reviews) + tailA);
    var restB := " rev=" + (Decimal(b.reviews) + tailB);
    DropCommonPrefix("pr=", Decimal(a.pulls) + restA, Decimal(b.pulls) + restB);
    DigitsThenOther(Decimal(a.pulls), restA, Decimal(b.pulls), restB);
    DecimalInjective(a.pulls, b.pulls);
    DropCommonPrefix(" rev=", Decimal(a.reviews) + tailA, Decimal(b.reviews) + tailB);
    DigitsThenOther(Decimal(a.reviews), tailA, Decimal(b.reviews), tailB);
    DecimalInjective(a.reviews, b.reviews);
    DropCommonPrefix(" tic=", Decimal(a.issues) + endA, Decimal(b.issues) + endB);
    DigitsThenOther(Decimal(a.issues), endA, Decimal(b.issues), endB);
    DecimalInjective(a.issues, b.issues);
  }

  lemma LineRegroup(name: string, counts: string, score: string)
    ensures name + " - " + counts + " (" + score + ")" == (name + " - ") + (counts + (" (" + score + ")"))
    ensures (" (" + score + ")")[0] == ' '
  {
  }

  /** A user's printed line gives their counters back: different counters, different lines. */
  lemma ReportLineInjective(name: string, a: Counters, b: Counters)
    requires ReportLine(name, a) == ReportLine(name, b)
    ensures a == b
  {
    var endA := " (" + ScoreText(a) + ")";
    var endB := " (" + ScoreText(b) + ")";
    LineRegroup(name, Render(a), ScoreText(a));
    LineRegroup(name, Render(b), ScoreText(b));
    DropCommonPrefix(name + " - ", Render(a) + endA, Render(b) + endB);
    RenderThenInjective(a, b, endA, endB);
  }
}
