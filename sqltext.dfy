/**
 * The text of the SQL statements the data layer sends to PostgreSQL, and the
 * `$n` parameter references in it. PostgreSQL numbers the arguments of a
 * statement from 1, so `$n` stands for the n-th argument passed with it.
 */
module SqlText {
  import opened Text

  /** An argument passed with a statement. */
  datatype Arg = TextArg(s: string) | IntArg(i: int) | TimeArg(t: int) | ListArg(xs: seq<string>)

  /** Length of the run of decimal digits that starts the text. */
  function DigitRun(s: string): (k: nat)
    ensures k <= |s| && AllDigits(s[..k])
    ensures k < |s| ==> !IsDigit(s[k])
    decreases |s|
  {
    if s == [] || !IsDigit(s[0]) then 0 else 1 + DigitRun(s[1..])
  }

  /** The `$n` references of a statement, in the order they appear in its text. */
  function Placeholders(q: string): seq<nat>
    decreases |q|
  {
    if q == [] then []
    else if q[0] == '$' && |q| > 1 && IsDigit(q[1]) then
      var d := q[1..];
      var k := DigitRun(d);
      [Atoi(d[..k])] + Placeholders(d[k..])
    else Placeholders(q[1..])
  }

  /** The numbers lo, lo+1, ..., hi-1. */
  function Range(lo: nat, hi: nat): (r: seq<nat>)
    ensures |r| == if lo <= hi then hi - lo else 0
    ensures forall i :: 0 <= i < |r| ==> r[i] == lo + i
    decreases hi - lo
  {
    if lo >= hi then [] else [lo] + Range(lo + 1, hi)
  }

  /** Two texts can be scanned apart: no reference runs across the seam. */
  predicate SafeSeam(a: string, b: string) {
    (b == [] || !IsDigit(b[0])) || (a != [] && a[|a| - 1] != '$' && !IsDigit(a[|a| - 1]))
  }

  lemma {:induction false} DigitRunAppend(a: string, b: string)
    requires b == [] || !IsDigit(b[0])
    ensures DigitRun(a + b) == DigitRun(a)
    decreases |a|
  {
    if a == [] {
    } else if IsDigit(a[0]) {
      assert (a + b)[1..] == a[1..] + b;
      DigitRunAppend(a[1..], b);
    }
  }

  lemma {:induction false} DigitRunStops(a: string, b: string)
    requires a != [] && !IsDigit(a[|a| - 1])
    ensures DigitRun(a + b) == DigitRun(a) < |a|
    decreases |a|
  {
    if IsDigit(a[0]) {
      assert (a + b)[1..] == a[1..] + b;
      DigitRunStops(a[1..], b);
    }
  }

  /** The references of a concatenation are those of its parts when no reference straddles the seam. */
  lemma {:induction false} PlaceholdersAppend(a: string, b: string)
    requires SafeSeam(a, b)
    ensures Placeholders(a + b) == Placeholders(a) + Placeholders(b)
    decreases |a|
  {
    if a == [] {
      assert a + b == b;
    } else if a[0] == '$' && |a| > 1 && IsDigit(a[1]) {
      RefAppend(a, b);
    } else {
      var q := a + b;
      assert q[0] == a[0];
      assert q[1..] == a[1..] + b;
      if |a| == 1 {
        assert a[1..] == [];
        assert q[1..] == b;
        assert a[0] == '$' ==> (b == [] || !IsDigit(b[0]));
      } else {
        assert q[1] == a[1];
        PlaceholdersAppend(a[1..], b);
      }
    }
  }

  /** The step of PlaceholdersAppend where the text starts with a reference. */
  lemma {:induction false} RefAppend(a: string, b: string)
    requires SafeSeam(a, b)
    requires |a| > 1 && a[0] == '$' && IsDigit(a[1])
    ensures Placeholders(a + b) == Placeholders(a) + Placeholders(b)
    decreases |a|, 0
  {
    var da := a[1..];
    var k := DigitRun(da);
    RefScan(a, b);
    assert Placeholders(a) == [Atoi(da[..k])] + Placeholders(da[k..]);
    if k < |da| {
      assert SafeSeam(da[k..], b);
      PlaceholdersAppend(da[k..], b);
    } else {
      assert da[k..] + b == b;
      assert Placeholders(da[k..]) == [];
    }
    NatsAssoc([Atoi(da[..k])], Placeholders(da[k..]), Placeholders(b));
  }

  /** The reference at the front of `a` is scanned the same in `a + b`, and the scan goes on into `b`. */
  lemma RefScan(a: string, b: string)
    requires SafeSeam(a, b)
    requires |a| > 1 && a[0] == '$' && IsDigit(a[1])
    ensures var da := a[1..]; var k := DigitRun(da);
            Placeholders(a + b) == [Atoi(da[..k])] + Placeholders(da[k..] + b)
  {
    var q := a + b;
    var da := a[1..];
    var dq := q[1..];
    assert dq == da + b;
    var k := DigitRun(da);
    if b == [] || !IsDigit(b[0]) {
      DigitRunAppend(da, b);
    } else {
      DigitRunStops(da, b);
    }
    assert DigitRun(dq) == k;
    assert dq[..k] == da[..k];
    assert dq[k..] == da[k..] + b;
  }

  lemma NatsAssoc(a: seq<nat>, b: seq<nat>, c: seq<nat>)
    ensures a + (b + c) == a + b + c
  {
  }

  /** A text without `$` references nothing. */
  lemma {:induction false} PlaceholdersNone(s: string)
    requires '$' !in s
    ensures Placeholders(s) == []
    decreases |s|
  {
    if s != [] {
      PlaceholdersNone(s[1..]);
    }
  }

  /** `$n` followed by a non-digit references exactly n. */
  lemma PlaceholderOfRef(n: nat)
    ensures Placeholders("$" + Itoa(n)) == [n]
  {
    var q := "$" + Itoa(n);
    var d := Itoa(n);
    assert q[1..] == d + [];
    DigitRunAppend(d, []);
    assert DigitRun(d) == |d| by {
      DigitRunAllDigits(d);
    }
    assert q[1..][..|d|] == d;
    AtoiItoa(n);
    assert q[1..][|d|..] == [];
  }

  lemma {:induction false} DigitRunAllDigits(d: string)
    requires AllDigits(d)
    ensures DigitRun(d) == |d|
    decreases |d|
  {
    if d != [] {
      DigitRunAllDigits(d[1..]);
    }
  }

  /**
   * A statement as the source writes it: literal text and parameter references.
   * A reference records the column it is written against (`name = $2`, `$3 = any(tech_stack)`)
   * so that one can ask whether the argument it numbers is the one meant for that column.
   */
  datatype Piece = Lit(text: string) | Ref(column: string, index: nat)

  function RenderPiece(p: Piece): string {
    match p
    case Lit(t) => t
    case Ref(_, n) => "$" + Itoa(n)
  }

  /** The statement text the pieces spell. */
  function Render(ps: seq<Piece>): string
    decreases |ps|
  {
    if ps == [] then "" else RenderPiece(ps[0]) + Render(ps[1..])
  }

  lemma RenderCons(p: Piece, rest: seq<Piece>)
    ensures Render([p] + rest) == RenderPiece(p) + Render(rest)
  {
    assert ([p] + rest)[1..] == rest;
  }

  /** Rendering a short literal list, piece by piece. */
  lemma Render1(a: Piece)
    ensures Render([a]) == RenderPiece(a)
  {
    RenderCons(a, []);
  }

  lemma Render2(a: Piece, b: Piece)
    ensures Render([a, b]) == RenderPiece(a) + RenderPiece(b)
  {
    assert [a, b] == [a] + [b];
    RenderCons(a, [b]);
    Render1(b);
  }

  lemma Render3(a: Piece, b: Piece, c: Piece)
    ensures Render([a, b, c]) == RenderPiece(a) + (RenderPiece(b) + RenderPiece(c))
  {
    assert [a, b, c] == [a] + [b, c];
    RenderCons(a, [b, c]);
    Render2(b, c);
  }

  lemma Render4(a: Piece, b: Piece, c: Piece, d: Piece)
    ensures Render([a, b, c, d]) == RenderPiece(a) + (RenderPiece(b) + (RenderPiece(c) + RenderPiece(d)))
  {
    assert [a, b, c, d] == [a] + [b, c, d];
    RenderCons(a, [b, c, d]);
    Render3(b, c, d);
  }

  lemma Render5(a: Piece, b: Piece, c: Piece, d: Piece, e: Piece)
    ensures Render([a, b, c, d, e])
         == RenderPiece(a) + (RenderPiece(b) + (RenderPiece(c) + (RenderPiece(d) + RenderPiece(e))))
  {
    assert [a, b, c, d, e] == [a] + [b, c, d, e];
    RenderCons(a, [b, c, d, e]);
    Render4(b, c, d, e);
  }

  lemma {:induction false} RenderAppend(ps: seq<Piece>, qs: seq<Piece>)
    ensures Render(ps + qs) == Render(ps) + Render(qs)
    decreases |ps|
  {
    if ps != [] {
      assert (ps + qs)[0] == ps[0];
      assert (ps + qs)[1..] == ps[1..] + qs;
      RenderAppend(ps[1..], qs);
      calc {
        Render(ps + qs);
        RenderPiece((ps + qs)[0]) + Render((ps + qs)[1..]);
        RenderPiece(ps[0]) + Render(ps[1..] + qs);
        RenderPiece(ps[0]) + (Render(ps[1..]) + Render(qs));
      }
    } else {
      assert ps + qs == qs;
    }
  }

  /** Literal text holds no `$` and does not start with a digit, so it cannot extend or fake a reference. */
  predicate PlainLiterals(ps: seq<Piece>) {
    forall i :: 0 <= i < |ps| && ps[i].Lit? ==> '$' !in ps[i].text && (ps[i].text == [] || !IsDigit(ps[i].text[0]))
  }

  /** The parameter numbers referenced by the pieces, in order. */
  function Indices(ps: seq<Piece>): seq<nat>
    decreases |ps|
  {
    if ps == [] then [] else (if ps[0].Ref? then [ps[0].index] else []) + Indices(ps[1..])
  }

  lemma {:induction false} RenderStart(ps: seq<Piece>)
    requires PlainLiterals(ps)
    ensures Render(ps) == [] || !IsDigit(Render(ps)[0])
    decreases |ps|
  {
    if ps != [] {
      if ps[0].Lit? && ps[0].text == [] {
        assert Render(ps) == Render(ps[1..]);
        RenderStart(ps[1..]);
      }
    }
  }

  /** Scanning the rendered text finds exactly the references the pieces hold. */
  lemma {:induction false} PlaceholdersOfRender(ps: seq<Piece>)
    requires PlainLiterals(ps)
    ensures Placeholders(Render(ps)) == Indices(ps)
    decreases |ps|
  {
    if ps == [] {
      return;
    }
    assert PlainLiterals(ps[1..]);
    RenderStart(ps[1..]);
    PlaceholdersOfRender(ps[1..]);
    PlaceholdersAppend(RenderPiece(ps[0]), Render(ps[1..]));
    match ps[0]
    case Lit(t) =>
      PlaceholdersNone(t);
    case Ref(_, n) =>
      PlaceholderOfRef(n);
  }

  /**
   * The arguments line up with a stretch of a statement whose references start
   * after `base`: its references are exactly base+1..base+|args| in order, and
   * each one numbers the argument meant for its column.
   */
  predicate BoundFrom(ps: seq<Piece>, args: seq<Arg>, base: nat, meant: map<string, Arg>) {
    Indices(ps) == Range(base + 1, base + |args| + 1) && RefsBound(ps, args, base, meant)
  }

  /** Every reference numbers one of the arguments after `base`, and that argument is its column's. */
  predicate RefsBound(ps: seq<Piece>, args: seq<Arg>, base: nat, meant: map<string, Arg>) {
    forall i :: 0 <= i < |ps| && ps[i].Ref? ==>
      base < ps[i].index <= base + |args| && ps[i].column in meant
      && args[ps[i].index - base - 1] == meant[ps[i].column]
  }

  /**
   * The arguments line up with the statement: every reference numbers an argument, that argument is the
   * value meant for the reference's column, and the references are exactly 1..|args| in order.
   */
  predicate WellBound(ps: seq<Piece>, args: seq<Arg>, meant: map<string, Arg>) {
    BoundFrom(ps, args, 0, meant)
  }

  lemma {:induction false} IndicesAppend(ps: seq<Piece>, qs: seq<Piece>)
    ensures Indices(ps + qs) == Indices(ps) + Indices(qs)
    decreases |ps|
  {
    if ps == [] {
      assert ps + qs == qs;
    } else {
      assert (ps + qs)[0] == ps[0];
      assert (ps + qs)[1..] == ps[1..] + qs;
      IndicesAppend(ps[1..], qs);
    }
  }

  lemma {:induction false} RangeAppend(a: nat, b: nat, c: nat)
    requires a <= b <= c
    ensures Range(a, b) + Range(b, c) == Range(a, c)
  {
    var r := Range(a, b) + Range(b, c);
    assert |r| == |Range(a, c)|;
    forall i | 0 <= i < |r| ensures r[i] == Range(a, c)[i] {
      if i < b - a {
        assert r[i] == Range(a, b)[i];
      } else {
        assert r[i] == Range(b, c)[i - (b - a)];
      }
    }
  }

  /** Two bound stretches, one after the other, make one bound stretch. */
  lemma {:induction false} BoundAppend(ps: seq<Piece>, a1: seq<Arg>, qs: seq<Piece>, a2: seq<Arg>,
                                       base: nat, meant: map<string, Arg>)
    requires BoundFrom(ps, a1, base, meant)
    requires BoundFrom(qs, a2, base + |a1|, meant)
    ensures BoundFrom(ps + qs, a1 + a2, base, meant)
  {
    IndicesAppend(ps, qs);
    RangeAppend(base + 1, base + |a1| + 1, base + |a1| + |a2| + 1);
    RefsAppend(ps, a1, qs, a2, base, meant);
  }

  /** Three bound stretches in a row make one. */
  lemma BoundAppend3(ps: seq<Piece>, a1: seq<Arg>, qs: seq<Piece>, a2: seq<Arg>, rs: seq<Piece>, a3: seq<Arg>,
                     base: nat, meant: map<string, Arg>)
    requires BoundFrom(ps, a1, base, meant)
    requires BoundFrom(qs, a2, base + |a1|, meant)
    requires BoundFrom(rs, a3, base + |a1| + |a2|, meant)
    ensures BoundFrom(ps + qs + rs, a1 + a2 + a3, base, meant)
  {
    BoundAppend(ps, a1, qs, a2, base, meant);
    BoundAppend(ps + qs, a1 + a2, rs, a3, base, meant);
  }

  lemma RefsAppend(ps: seq<Piece>, a1: seq<Arg>, qs: seq<Piece>, a2: seq<Arg>, base: nat, meant: map<string, Arg>)
    requires RefsBound(ps, a1, base, meant) && RefsBound(qs, a2, base + |a1|, meant)
    ensures RefsBound(ps + qs, a1 + a2, base, meant)
  {
    var all := ps + qs;
    var args := a1 + a2;
    forall i | 0 <= i < |all| && all[i].Ref?
      ensures base < all[i].index <= base + |args| && all[i].column in meant
              && args[all[i].index - base - 1] == meant[all[i].column]
    {
      if i < |ps| {
        assert all[i] == ps[i];
        assert args[ps[i].index - base - 1] == a1[ps[i].index - base - 1];
      } else {
        var q := qs[i - |ps|];
        assert all[i] == q;
        assert args[q.index - base - 1] == a2[q.index - (base + |a1|) - 1];
      }
    }
  }

  /** Literal text binds no argument. */
  lemma LitBound(t: string, base: nat, meant: map<string, Arg>)
    ensures BoundFrom([Lit(t)], [], base, meant)
  {
    assert Indices([Lit(t)]) == [];
  }

  /** A literal in front binds nothing and shifts nothing. */
  lemma LitPrefixBound(t: string, qs: seq<Piece>, args: seq<Arg>, base: nat, meant: map<string, Arg>)
    requires BoundFrom(qs, args, base, meant)
    ensures BoundFrom([Lit(t)] + qs, args, base, meant)
  {
    var ps := [Lit(t)] + qs;
    assert ps[1..] == qs;
    forall i | 1 <= i < |ps| ensures ps[i] == qs[i - 1] { }
  }

  /** A reference to the next argument binds it when it is the one meant for its column. */
  lemma RefBound(column: string, arg: Arg, base: nat, meant: map<string, Arg>)
    requires column in meant && meant[column] == arg
    ensures BoundFrom([Ref(column, base + 1)], [arg], base, meant)
  {
    assert Indices([Ref(column, base + 1)]) == [base + 1];
  }

  lemma {:induction false} PlainAppend(ps: seq<Piece>, qs: seq<Piece>)
    requires PlainLiterals(ps) && PlainLiterals(qs)
    ensures PlainLiterals(ps + qs)
  {
    forall i | 0 <= i < |ps + qs| && (ps + qs)[i].Lit?
      ensures '$' !in (ps + qs)[i].text && ((ps + qs)[i].text == [] || !IsDigit((ps + qs)[i].text[0]))
    {
      if i < |ps| { assert (ps + qs)[i] == ps[i]; } else { assert (ps + qs)[i] == qs[i - |ps|]; }
    }
  }

  /** The pieces of the groups, with a literal separator between neighbours (strings.Join on pieces). */
  function JoinPieces(groups: seq<seq<Piece>>, sep: string): seq<Piece>
    decreases |groups|
  {
    if groups == [] then []
    else if |groups| == 1 then groups[0]
    else groups[0] + [Lit(sep)] + JoinPieces(groups[1..], sep)
  }

  /** The text of each group. */
  function RenderAll(groups: seq<seq<Piece>>): (texts: seq<string>)
    ensures |texts| == |groups| && forall j :: 0 <= j < |groups| ==> texts[j] == Render(groups[j])
  {
    seq(|groups|, j requires 0 <= j < |groups| => Render(groups[j]))
  }

  /** Joining the groups' texts is rendering the joined pieces. */
  lemma {:induction false} RenderJoin(groups: seq<seq<Piece>>, sep: string)
    ensures Text.Join(RenderAll(groups), sep) == Render(JoinPieces(groups, sep))
    decreases |groups|
  {
    if |groups| > 1 {
      RenderJoin(groups[1..], sep);
      assert RenderAll(groups)[1..] == RenderAll(groups[1..]);
      RenderAppend(groups[0] + [Lit(sep)], JoinPieces(groups[1..], sep));
      RenderAppend(groups[0], [Lit(sep)]);
      assert Render([Lit(sep)]) == sep;
    }
  }

  /**
   * Joining groups that each bind one argument, the j-th the j-th argument,
   * binds all the arguments in order.
   */
  lemma {:induction false} JoinBound(groups: seq<seq<Piece>>, args: seq<Arg>, sep: string, base: nat,
                                     meant: map<string, Arg>)
    requires |groups| == |args|
    requires forall j :: 0 <= j < |groups| ==> BoundFrom(groups[j], [args[j]], base + j, meant)
    ensures BoundFrom(JoinPieces(groups, sep), args, base, meant)
    decreases |groups|
  {
    if groups == [] {
      assert Indices([]) == [];
    } else if |groups| == 1 {
      assert [args[0]] == args;
    } else {
      var g0 := groups[0];
      var rest := groups[1..];
      var tail := args[1..];
      forall j | 0 <= j < |rest| ensures BoundFrom(rest[j], [tail[j]], base + 1 + j, meant) {
        assert rest[j] == groups[j + 1] && tail[j] == args[j + 1];
      }
      JoinBound(rest, tail, sep, base + 1, meant);
      JoinStep(g0, args[0], JoinPieces(rest, sep), tail, sep, base, meant);
      assert [args[0]] + tail == args;
    }
  }

  /** One step of JoinBound: a group binding one argument, the separator, then the rest. */
  lemma JoinStep(g0: seq<Piece>, a0: Arg, joined: seq<Piece>, tail: seq<Arg>, sep: string, base: nat,
                 meant: map<string, Arg>)
    requires BoundFrom(g0, [a0], base, meant)
    requires BoundFrom(joined, tail, base + 1, meant)
    ensures BoundFrom(g0 + [Lit(sep)] + joined, [a0] + tail, base, meant)
  {
    LitBound(sep, base + 1, meant);
    BoundAppend([Lit(sep)], [], joined, tail, base + 1, meant);
    assert [] + tail == tail;
    BoundAppend(g0, [a0], [Lit(sep)] + joined, tail, base, meant);
    Assoc(g0, [Lit(sep)], joined);
  }

  lemma Assoc(a: seq<Piece>, b: seq<Piece>, c: seq<Piece>)
    ensures a + b + c == a + (b + c)
  {
  }

  /** Joining one more group onto a non-empty join adds the separator and the group. */
  lemma {:induction false} JoinSnoc(groups: seq<seq<Piece>>, g: seq<Piece>, sep: string)
    requires groups != []
    ensures JoinPieces(groups + [g], sep) == JoinPieces(groups, sep) + [Lit(sep)] + g
    decreases |groups|
  {
    if |groups| == 1 {
      assert groups + [g] == [groups[0], g];
      assert [groups[0], g][1..] == [g];
    } else {
      assert (groups + [g])[1..] == groups[1..] + [g];
      JoinSnoc(groups[1..], g, sep);
      var j := JoinPieces(groups[1..], sep);
      assert JoinPieces(groups + [g], sep) == groups[0] + [Lit(sep)] + (j + [Lit(sep)] + g);
    }
  }

  /** A group bound after a bound join stays bound once joined on. */
  lemma BoundJoinSnoc(groups: seq<seq<Piece>>, g: seq<Piece>, a1: seq<Arg>, a2: seq<Arg>, sep: string,
                      meant: map<string, Arg>)
    requires groups != []
    requires BoundFrom(JoinPieces(groups, sep), a1, 0, meant)
    requires BoundFrom(g, a2, |a1|, meant)
    ensures BoundFrom(JoinPieces(groups + [g], sep), a1 + a2, 0, meant)
  {
    JoinSnoc(groups, g, sep);
    LitBound(sep, |a1|, meant);
    BoundAppend(JoinPieces(groups, sep), a1, [Lit(sep)], [], 0, meant);
    assert a1 + [] == a1;
    BoundAppend(JoinPieces(groups, sep) + [Lit(sep)], a1, g, a2, 0, meant);
  }

  /** Joining groups of plain literals with a plain separator keeps the literals plain. */
  lemma {:induction false} JoinPlain(groups: seq<seq<Piece>>, sep: string)
    requires forall j :: 0 <= j < |groups| ==> PlainLiterals(groups[j])
    requires '$' !in sep && (sep == [] || !IsDigit(sep[0]))
    ensures PlainLiterals(JoinPieces(groups, sep))
    decreases |groups|
  {
    if |groups| > 1 {
      JoinPlain(groups[1..], sep);
      PlainAppend(groups[0], [Lit(sep)]);
      PlainAppend(groups[0] + [Lit(sep)], JoinPieces(groups[1..], sep));
    }
  }
}
