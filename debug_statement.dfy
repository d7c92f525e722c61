/**
 * DebugPDOStatement: the statement remembers the values it was executed with,
 * and on demand rebuilds the query text with every ":name" placeholder
 * replaced by a single-quoted literal of its bound value, so that a failed
 * query can be logged as SQL a reader could run by hand.
 */
module DebugStatement {
  import opened PhpValues

  /** The characters of a placeholder name: [0-9a-z_] matched case-insensitively. */
  predicate IsNameChar(c: char)
  {
    '0' <= c <= '9' || 'a' <= c <= 'z' || 'A' <= c <= 'Z' || c == '_'
  }

  /** The length of the run of name characters that `s` starts with. */
  function NameRun(s: string): (n: nat)
    ensures n <= |s|
    ensures forall k :: 0 <= k < n ==> IsNameChar(s[k])
    ensures n < |s| ==> !IsNameChar(s[n])
  {
    if s != [] && IsNameChar(s[0]) then 1 + NameRun(s[1..]) else 0
  }

  /** What replaces a placeholder, given what its name is bound to (None: not bound at all). */
  function BoundLiteral(v: Option<Value>): (r: string)
    ensures r == "" <==> v.None? || v == Some(Null)
    ensures r != "" ==> |r| >= 2 && r[0] == '\'' && r[|r| - 1] == '\''
  {
    match v
    case None => ""
    case Some(Null) => ""
    case Some(Int(i)) => "'" + IntToStr(i) + "'"
    case Some(Str(s)) => if IsNumericStr(s) then "'" + s + "'" else "'" + ReplaceStr(s, "'", "''") + "'"
    case Some(Arr(_)) => "'Array'"
  }

  /**
   * The debug query: placeholders, scanned left to right, replaced by the
   * literals of their values; that is, substitution over the reading Tokenize gives.
   */
  function Reconstruct(q: string, values: seq<Entry>): (r: string)
    ensures r == Substitute(Tokenize(q), values)
    decreases |q|
  {
    if q == [] then ""
    else if q[0] == ':' && |q| > 1 && IsNameChar(q[1]) then
      var n := NameRun(q[1..]);
      BoundLiteral(Lookup(values, ToKey(q[1..1 + n]))) + Reconstruct(q[1 + n..], values)
    else
      [q[0]] + Reconstruct(q[1..], values)
  }

  // ---------------------------------------------------------------------------
  // A reference reading: the query as text characters and placeholders
  // ---------------------------------------------------------------------------

  datatype Piece = Text(c: char) | Placeholder(name: string)

  function Join(ps: seq<Piece>): string
  {
    if ps == [] then ""
    else (match ps[0] case Text(c) => [c] case Placeholder(n) => ":" + n) + Join(ps[1..])
  }

  function Substitute(ps: seq<Piece>, values: seq<Entry>): string
  {
    if ps == [] then ""
    else
      (match ps[0]
       case Text(c) => [c]
       case Placeholder(n) => BoundLiteral(Lookup(values, ToKey(n))))
      + Substitute(ps[1..], values)
  }

  predicate NotFollowedByName(ps: seq<Piece>, i: nat)
  {
    i + 1 >= |ps| || !(ps[i + 1].Text? && IsNameChar(ps[i + 1].c))
  }

  /**
   * Placeholders are maximal (a name is never followed by a name character)
   * and a ':' kept as text is not followed by a name character either.
   */
  predicate WellFormed(ps: seq<Piece>)
  {
    forall i :: 0 <= i < |ps| ==>
      (ps[i].Placeholder? ==>
        ps[i].name != [] && (forall k :: 0 <= k < |ps[i].name| ==> IsNameChar(ps[i].name[k])) && NotFollowedByName(ps, i))
      && (ps[i] == Text(':') ==> NotFollowedByName(ps, i))
  }

  /** The pieces the scan of Reconstruct sees. */
  function Tokenize(q: string): seq<Piece>
    decreases |q|
  {
    if q == [] then []
    else if q[0] == ':' && |q| > 1 && IsNameChar(q[1]) then
      var n := NameRun(q[1..]);
      [Placeholder(q[1..1 + n])] + Tokenize(q[1 + n..])
    else
      [Text(q[0])] + Tokenize(q[1..])
  }

  lemma JoinHead(ps: seq<Piece>)
    requires ps != []
    ensures Join(ps) != [] && Join(ps)[0] == if ps[0].Text? then ps[0].c else ':'
  {
  }

  lemma WellFormedTail(ps: seq<Piece>)
    requires ps != [] && WellFormed(ps)
    ensures WellFormed(ps[1..])
  {
    var t := ps[1..];
    forall i | 0 <= i < |t|
      ensures NotFollowedByName(t, i) == NotFollowedByName(ps, i + 1)
    {
      if i + 1 < |t| {
        assert t[i + 1] == ps[i + 2];
      }
    }
  }

  lemma {:induction false} NameRunExact(n: string, t: string)
    requires forall k :: 0 <= k < |n| ==> IsNameChar(n[k])
    requires t == [] || !IsNameChar(t[0])
    ensures NameRun(n + t) == |n|
    decreases |n|
  {
    if n != [] {
      NameRunExact(n[1..], t);
      assert (n + t)[0] == n[0];
      assert (n + t)[1..] == n[1..] + t;
    } else {
      assert n + t == t;
    }
  }

  /** One text piece in front of the rest of a well-formed reading. */
  lemma ReconstructTextPiece(c: char, rest: seq<Piece>, values: seq<Entry>)
    requires WellFormed([Text(c)] + rest)
    ensures Reconstruct([c] + Join(rest), values) == [c] + Reconstruct(Join(rest), values)
  {
    var ps := [Text(c)] + rest;
    var q := [c] + Join(rest);
    if c == ':' && |q| > 1 {
      JoinHead(rest);
      assert q[1] == Join(rest)[0];
      assert NotFollowedByName(ps, 0);
      assert ps[1] == rest[0];
    }
    assert q[1..] == Join(rest);
  }

  /** One placeholder piece in front of the rest of a well-formed reading. */
  lemma ReconstructPlaceholderPiece(n: string, rest: seq<Piece>, values: seq<Entry>)
    requires WellFormed([Placeholder(n)] + rest)
    ensures Reconstruct(":" + n + Join(rest), values)
      == BoundLiteral(Lookup(values, ToKey(n))) + Reconstruct(Join(rest), values)
  {
    var ps := [Placeholder(n)] + rest;
    var q := ":" + n + Join(rest);
    assert ps[0] == Placeholder(n);
    assert NotFollowedByName(ps, 0);
    if rest != [] {
      JoinHead(rest);
      assert ps[1] == rest[0];
    }
    NameRunExact(n, Join(rest));
    assert q[1..] == n + Join(rest);
    assert q[1] == n[0];
    assert q[1..1 + |n|] == n;
    assert q[1 + |n|..] == Join(rest);
  }

  /** Reconstruct replaces exactly the placeholders of a well-formed reading of the query. */
  lemma {:induction false} ReconstructSubstitutes(ps: seq<Piece>, values: seq<Entry>)
    requires WellFormed(ps)
    ensures Reconstruct(Join(ps), values) == Substitute(ps, values)
    decreases |ps|
  {
    if ps != [] {
      var rest := ps[1..];
      assert ps == [ps[0]] + rest;
      WellFormedTail(ps);
      ReconstructSubstitutes(rest, values);
      match ps[0]
      case Text(c) =>
        ReconstructTextPiece(c, rest, values);
      case Placeholder(n) =>
        ReconstructPlaceholderPiece(n, rest, values);
    }
  }

  /** A piece that keeps the conditions of WellFormed in front of a well-formed rest. */
  lemma WellFormedCons(p: Piece, rest: seq<Piece>)
    requires WellFormed(rest)
    requires p.Placeholder? ==> p.name != [] && forall k :: 0 <= k < |p.name| ==> IsNameChar(p.name[k])
    requires (p.Placeholder? || p == Text(':')) && rest != [] ==> !(rest[0].Text? && IsNameChar(rest[0].c))
    ensures WellFormed([p] + rest)
  {
    var ps := [p] + rest;
    forall i | 0 <= i < |ps|
      ensures (ps[i].Placeholder? ==>
        ps[i].name != [] && (forall k :: 0 <= k < |ps[i].name| ==> IsNameChar(ps[i].name[k])) && NotFollowedByName(ps, i))
        && (ps[i] == Text(':') ==> NotFollowedByName(ps, i))
    {
      if i > 0 {
        assert ps[i] == rest[i - 1];
        assert NotFollowedByName(ps, i) == NotFollowedByName(rest, i - 1);
      }
    }
  }

  /** Tokenize reads any query completely and well-formedly. */
  lemma {:induction false} TokenizeSound(q: string)
    ensures Join(Tokenize(q)) == q && WellFormed(Tokenize(q))
    decreases |q|
  {
    if q != [] {
      if q[0] == ':' && |q| > 1 && IsNameChar(q[1]) {
        TokenizeSound(q[1 + NameRun(q[1..])..]);
        TokenizePlaceholderStep(q);
      } else {
        TokenizeSound(q[1..]);
        TokenizeTextStep(q);
      }
    }
  }

  lemma TokenizePlaceholderStep(q: string)
    requires q != [] && q[0] == ':' && |q| > 1 && IsNameChar(q[1])
    requires var tail := q[1 + NameRun(q[1..])..]; Join(Tokenize(tail)) == tail && WellFormed(Tokenize(tail))
    ensures Join(Tokenize(q)) == q && WellFormed(Tokenize(q))
  {
    var n := NameRun(q[1..]);
    var name := q[1..1 + n];
    var tail := q[1 + n..];
    NameRunSplit(q);
    PlaceholderCons(name, tail);
    TokenizePlaceholderHead(q);
    SplitColonName(q, n);
  }

  lemma TokenizeTextStep(q: string)
    requires q != [] && !(q[0] == ':' && |q| > 1 && IsNameChar(q[1]))
    requires Join(Tokenize(q[1..])) == q[1..] && WellFormed(Tokenize(q[1..]))
    ensures Join(Tokenize(q)) == q && WellFormed(Tokenize(q))
  {
    TextCons(q[0], q[1..]);
    assert Tokenize(q) == [Text(q[0])] + Tokenize(q[1..]);
    assert q == [q[0]] + q[1..];
  }

  /** The name a placeholder scan takes is a non-empty run of name characters, and what follows does not continue it. */
  lemma NameRunSplit(q: string)
    requires q != [] && q[0] == ':' && |q| > 1 && IsNameChar(q[1])
    ensures var n := NameRun(q[1..]); var name := q[1..1 + n]; var tail := q[1 + n..];
      name != [] && (forall k :: 0 <= k < |name| ==> IsNameChar(name[k])) && (tail == [] || !IsNameChar(tail[0]))
  {
    var s := q[1..];
    var n := NameRun(s);
    assert s[0] == q[1];
    assert n > 0;
    var name := q[1..1 + n];
    assert name == s[..n];
    assert forall k :: 0 <= k < |name| ==> name[k] == s[k];
    var tail := q[1 + n..];
    assert tail == s[n..];
    if tail != [] {
      assert tail[0] == s[n];
    }
  }

  lemma TokenizePlaceholderHead(q: string)
    requires q != [] && q[0] == ':' && |q| > 1 && IsNameChar(q[1])
    ensures var n := NameRun(q[1..]); Tokenize(q) == [Placeholder(q[1..1 + n])] + Tokenize(q[1 + n..])
  {
  }

  lemma SplitColonName(q: string, n: nat)
    requires q != [] && q[0] == ':' && 1 + n <= |q|
    ensures q == ":" + q[1..1 + n] + q[1 + n..]
  {
  }

  lemma PlaceholderCons(name: string, tail: string)
    requires name != [] && forall k :: 0 <= k < |name| ==> IsNameChar(name[k])
    requires tail == [] || !IsNameChar(tail[0])
    requires Join(Tokenize(tail)) == tail && WellFormed(Tokenize(tail))
    ensures var ps := [Placeholder(name)] + Tokenize(tail); Join(ps) == ":" + name + tail && WellFormed(ps)
  {
    var ps := [Placeholder(name)] + Tokenize(tail);
    assert ps[1..] == Tokenize(tail);
    if tail != [] {
      JoinHead(Tokenize(tail));
    }
    WellFormedCons(Placeholder(name), Tokenize(tail));
  }

  lemma TextCons(c: char, tail: string)
    requires c == ':' && tail != [] ==> !IsNameChar(tail[0])
    requires Join(Tokenize(tail)) == tail && WellFormed(Tokenize(tail))
    ensures var ps := [Text(c)] + Tokenize(tail); Join(ps) == [c] + tail && WellFormed(ps)
  {
    var ps := [Text(c)] + Tokenize(tail);
    assert ps[1..] == Tokenize(tail);
    if c == ':' && tail != [] {
      JoinHead(Tokenize(tail));
    }
    WellFormedCons(Text(c), Tokenize(tail));
  }

  /** A query without ':' is shown unchanged. */
  lemma {:induction false} ReconstructNoColon(q: string, values: seq<Entry>)
    requires forall k :: 0 <= k < |q| ==> q[k] != ':'
    ensures Reconstruct(q, values) == q
    decreases |q|
  {
    if q != [] {
      ReconstructNoColon(q[1..], values);
      assert q == [q[0]] + q[1..];
    }
  }

  /** A first character other than ':' is copied. */
  lemma ReconstructPlainHead(q: string, values: seq<Entry>)
    requires q != [] && q[0] != ':'
    ensures Reconstruct(q, values) == [q[0]] + Reconstruct(q[1..], values)
  {
  }

  lemma PlainPrefixRegroup(p: string, t: string)
    requires p != []
    ensures [p[0]] + (p[1..] + t) == p + t
  {
    assert p == [p[0]] + p[1..];
  }

  /** Text without ':' before the rest of a query is copied as it is. */
  lemma {:induction false} ReconstructPlainPrefix(p: string, r: string, values: seq<Entry>)
    requires forall k :: 0 <= k < |p| ==> p[k] != ':'
    ensures Reconstruct(p + r, values) == p + Reconstruct(r, values)
    decreases |p|
  {
    if p != [] {
      assert (p + r)[1..] == p[1..] + r;
      assert (p + r)[0] == p[0];
      ReconstructPlainHead(p + r, values);
      ReconstructPlainPrefix(p[1..], r, values);
      PlainPrefixRegroup(p, Reconstruct(r, values));
    } else {
      assert p + r == r;
    }
  }

  /** A placeholder that ends the query becomes the literal of its value. */
  lemma ReconstructPlaceholder(n: string, values: seq<Entry>)
    requires n != [] && forall k :: 0 <= k < |n| ==> IsNameChar(n[k])
    ensures Reconstruct(":" + n, values) == BoundLiteral(Lookup(values, ToKey(n)))
  {
    var q := ":" + n;
    NameRunExact(n, "");
    assert q[1..] == n + "";
    assert q[1..1 + |n|] == n;
    assert q[1 + |n|..] == "";
  }

  // ---------------------------------------------------------------------------
  // The literals can be read back
  // ---------------------------------------------------------------------------

  /** The body of a single-quoted SQL literal up to its closing quote ('' stands for one quote), and what follows. */
  function ParseQuoted(s: string): Option<(string, string)>
    decreases |s|
  {
    if s == [] then None
    else if s[0] == '\'' then
      if |s| > 1 && s[1] == '\'' then
        match ParseQuoted(s[2..])
        case None => None
        case Some(r) => Some(("'" + r.0, r.1))
      else Some(("", s[1..]))
    else
      match ParseQuoted(s[1..])
      case None => None
      case Some(r) => Some(([s[0]] + r.0, r.1))
  }

  /** A single-quoted SQL literal at the start of `s`. */
  function ParseLiteral(s: string): Option<(string, string)>
  {
    if s != [] && s[0] == '\'' then ParseQuoted(s[1..]) else None
  }

  lemma {:induction false} QuotedRoundTrip(s: string, rest: string)
    requires rest == [] || rest[0] != '\''
    ensures ParseQuoted(ReplaceStr(s, "'", "''") + "'" + rest) == Some((s, rest))
    decreases |s|
  {
    var t := ReplaceStr(s, "'", "''") + "'" + rest;
    if s == [] {
      assert t == "'" + rest;
      assert t[1..] == rest;
    } else {
      QuotedRoundTrip(s[1..], rest);
      var u := ReplaceStr(s[1..], "'", "''") + "'" + rest;
      ReplaceQuoteHead(s, rest);
      if s[0] == '\'' {
        QuotedStepQuote(u, s[1..], rest);
        assert "'" + s[1..] == s;
      } else {
        QuotedStepPlain(s[0], u, s[1..], rest);
        assert [s[0]] + s[1..] == s;
      }
    }
  }

  /** Doubling quotes handles the first character, then the rest. */
  lemma ReplaceQuoteHead(s: string, rest: string)
    requires s != []
    ensures ReplaceStr(s, "'", "''") + "'" + rest
      == (if s[0] == '\'' then "''" else [s[0]]) + (ReplaceStr(s[1..], "'", "''") + "'" + rest)
  {
    assert s[..1] == [s[0]];
  }

  lemma QuotedStepQuote(u: string, s: string, rest: string)
    requires ParseQuoted(u) == Some((s, rest))
    ensures ParseQuoted("''" + u) == Some(("'" + s, rest))
  {
    assert ("''" + u)[2..] == u;
  }

  lemma QuotedStepPlain(c: char, u: string, s: string, rest: string)
    requires c != '\'' && ParseQuoted(u) == Some((s, rest))
    ensures ParseQuoted([c] + u) == Some(([c] + s, rest))
  {
    assert ([c] + u)[1..] == u;
  }

  lemma {:induction false} ReplaceQuoteAbsent(s: string)
    requires forall k :: 0 <= k < |s| ==> s[k] != '\''
    ensures ReplaceStr(s, "'", "''") == s
    decreases |s|
  {
    if s != [] {
      ReplaceQuoteAbsent(s[1..]);
      assert s[..1] == [s[0]];
      assert [s[0]] + s[1..] == s;
    }
  }

  /**
   * Reading back the literal shown for a string value gives the string, for
   * numeric strings (quoted as they are) and others (quotes doubled) alike.
   */
  lemma StringLiteralRoundTrip(s: string, rest: string)
    requires rest == [] || rest[0] != '\''
    ensures ParseLiteral(BoundLiteral(Some(Str(s))) + rest) == Some((s, rest))
  {
    if IsNumericStr(s) {
      NumericHasNoQuote(s);
      ReplaceQuoteAbsent(s);
    }
    QuotedRoundTrip(s, rest);
    ParseLiteralQuoted(ReplaceStr(s, "'", "''"), rest);
  }

  lemma ParseLiteralQuoted(body: string, rest: string)
    ensures ParseLiteral("'" + body + "'" + rest) == ParseQuoted(body + "'" + rest)
  {
    assert ("'" + body + "'" + rest)[1..] == body + "'" + rest;
  }

  /** An integer is shown as its decimal digits in quotes. */
  lemma IntLiteralRoundTrip(i: int, rest: string)
    requires rest == [] || rest[0] != '\''
    ensures ParseLiteral(BoundLiteral(Some(Int(i))) + rest) == Some((IntToStr(i), rest))
  {
    var d := IntToStr(i);
    assert forall k :: 0 <= k < |d| ==> d[k] != '\'' by {
      if i < 0 {
        assert forall k :: 1 <= k < |d| ==> d[k] == NatToStr(-i)[k - 1];
      }
    }
    ReplaceQuoteAbsent(d);
    QuotedRoundTrip(d, rest);
    ParseLiteralQuoted(d, rest);
  }

  // ---------------------------------------------------------------------------
  // The statement object
  // ---------------------------------------------------------------------------

  class DebugPdoStatement {
    const queryString: string
    var debugValues: seq<Entry>

    constructor (queryString: string)
      ensures this.queryString == queryString && debugValues == []
    {
      this.queryString := queryString;
      debugValues := [];
    }

    /**
     * execute($values): remembers the values; when the driver reports an error
     * (`failure`), the message logged is the error text, a newline, and the
     * reconstructed query.
     */
    method Execute(values: seq<Entry>, failure: Option<string>) returns (logged: Option<string>)
      modifies this
      ensures debugValues == values
      ensures logged == if failure.Some? then Some(failure.value + "\n" + Reconstruct(queryString, values)) else None
    {
      debugValues := values;
      if failure.Some? {
        var q := DebugQuery(true);
        logged := Some(failure.value + "\n" + q);
      } else {
        logged := None;
      }
    }

    /** _debugQuery($replaced). */
    function DebugQuery(replaced: bool): (q: string)
      reads this
      ensures !replaced ==> q == queryString
      ensures (forall k :: 0 <= k < |queryString| ==> queryString[k] != ':') ==> q == queryString
    {
      if !replaced then queryString
      else
        ReconstructNoColonHere(queryString, debugValues);
        Reconstruct(queryString, debugValues)
    }
  }

  /** Helper for DebugQuery: apply ReconstructNoColon when the query has no ':'. */
  lemma ReconstructNoColonHere(q: string, values: seq<Entry>)
    ensures (forall k :: 0 <= k < |q| ==> q[k] != ':') ==> Reconstruct(q, values) == q
  {
    if forall k :: 0 <= k < |q| ==> q[k] != ':' {
      ReconstructNoColon(q, values);
    }
  }
}
