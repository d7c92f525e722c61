/**
 * What the builder promises: how `where` expands and binds, that it touches
 * nothing but the predicate list and the parameters, reference
 * characterisations of the WHERE and ORDER BY renderers, and the shape of the
 * statements the terminal operations produce.
 */
module QueryProperties {
  import opened PhpValues
  import opened QueryBuilder
  import DebugStatement

  // ---------------------------------------------------------------------------
  // where: the call shapes
  // ---------------------------------------------------------------------------

  lemma ReplaceAfterColon(c: string)
    ensures ReplaceStr(":" + c, ".", "_") == ":" + ReplaceStr(c, ".", "_")
  {
    assert (":" + c)[..1] == ":";
    assert (":" + c)[1..] == c;
  }

  /**
   * A scalar value is bound under the column's parameter key, and the
   * predicate's placeholder names exactly that key; other keys keep their values.
   */
  lemma WhereBindsScalar(st: State, c: string, operator: Value, value: Value, boolean: Value)
    requires c != "" && c != "0" && !value.Null? && !value.Arr?
    ensures var o := WhereSpec(st, Str(c), operator, value, boolean);
      !o.thrown
      && o.state.wheres == st.wheres + [Basic(c, ToStr(operator), ":" + KeyToStr(ParamKey(c)), ToStr(boolean))]
      && Lookup(o.state.params, ParamKey(c)) == Some(value)
      && (forall k :: k != ParamKey(c) ==> Lookup(o.state.params, k) == Lookup(st.params, k))
      && o.state == st.(wheres := o.state.wheres, params := o.state.params)
  {
    ReplaceAfterColon(c);
    KeyToStrToKey(ReplaceStr(c, ".", "_"));
    forall k {
      LookupAssign(st.params, ParamKey(c), value, k);
    }
  }

  /**
   * Two comparisons on the same column share one placeholder: both predicates
   * name it, and the later value is the one bound.
   */
  lemma WhereRebinds(st: State, c: string, op1: Value, v1: Value, op2: Value, v2: Value, boolean: Value)
    requires c != "" && c != "0" && !v1.Null? && !v1.Arr? && !v2.Null? && !v2.Arr?
    ensures var o1 := WhereSpec(st, Str(c), op1, v1, boolean);
      var o2 := WhereSpec(o1.state, Str(c), op2, v2, boolean);
      var ph := ":" + KeyToStr(ParamKey(c));
      !o2.thrown
      && o2.state.wheres == st.wheres + [Basic(c, ToStr(op1), ph, ToStr(boolean)), Basic(c, ToStr(op2), ph, ToStr(boolean))]
      && Lookup(o2.state.params, ParamKey(c)) == Some(v2)
  {
    var o1 := WhereSpec(st, Str(c), op1, v1, boolean);
    WhereBindsScalar(st, c, op1, v1, boolean);
    WhereBindsScalar(o1.state, c, op2, v2, boolean);
  }

  /** where(c, v): an equality comparison with v bound under the column's key. */
  lemma WhereTwoArguments(st: State, c: string, value: Value, boolean: Value)
    requires c != "" && c != "0" && !value.Null? && !value.Arr?
    ensures WhereSpec(st, Str(c), value, Null, boolean) == WhereSpec(st, Str(c), Str("="), value, boolean)
    ensures var o := WhereSpec(st, Str(c), value, Null, boolean);
      !o.thrown
      && o.state.wheres == st.wheres + [Basic(c, "=", ":" + KeyToStr(ParamKey(c)), ToStr(boolean))]
      && Lookup(o.state.params, ParamKey(c)) == Some(value)
  {
    WhereBindsScalar(st, c, Str("="), value, boolean);
  }

  /** An array value is inlined as "(v1, v2, ...)" and binds nothing, whatever the column's type. */
  lemma WhereInlinesArray(st: State, column: Value, operator: Value, es: seq<Entry>, boolean: Value)
    requires Truthy(column) && !column.Arr?
    ensures WhereSpec(st, column, operator, Arr(es), boolean)
      == Outcome(st.(wheres := st.wheres + [Basic(ToStr(column), ToStr(operator), InlineList(es), ToStr(boolean))]), false)
  {
  }

  /** where($column, [v1, v2, ...]) inlines the array under "=". */
  lemma WhereArrayTwoArguments(st: State, column: Value, es: seq<Entry>, boolean: Value)
    requires Truthy(column) && !column.Arr?
    ensures WhereSpec(st, column, Arr(es), Null, boolean)
      == Outcome(st.(wheres := st.wheres + [Basic(ToStr(column), "=", InlineList(es), ToStr(boolean))]), false)
  {
    WhereInlinesArray(st, column, Str("="), es, boolean);
  }

  /** A non-string column with a scalar value is a TypeError under strict types: nothing changes. */
  lemma WhereRejectsNonStringColumn(st: State, n: int, operator: Value, value: Value, boolean: Value)
    requires n != 0 && !value.Arr? && !operator.Arr?
    ensures WhereSpec(st, Int(n), operator, value, boolean) == Outcome(st, true)
  {
    if value.Null? && !operator.Null? {
      assert WhereSpec(st, Int(n), Str("="), operator, boolean) == Outcome(st, true);
    }
  }

  /**
   * where($s) alone compares the first character with the up to three
   * characters from position 2 on (position 1 is skipped): "1=1" becomes
   * "1 = :1" with 1 bound to "1", and "a" compares a with "".
   */
  lemma WhereOneArgument(st: State, s: string, boolean: Value)
    requires |s| >= 1 && s[0] != '0'
    ensures var o := WhereSpec(st, Str(s), Null, Null, boolean);
      !o.thrown
      && o.state.wheres == st.wheres + [Basic([s[0]], "=", ":" + KeyToStr(ParamKey([s[0]])), ToStr(boolean))]
      && Lookup(o.state.params, ParamKey([s[0]])) == Some(Str(Substr(s, 2, 3)))
  {
    assert Substr(s, 0, 1) == [s[0]];
    WhereBindsScalar(st, [s[0]], Str("="), Str(Substr(s, 2, 3)), boolean);
  }

  lemma WhereOneEqualsOne(st: State)
    ensures var o := WhereSpec(st, Str("1=1"), Null, Null, Str("and"));
      !o.thrown
      && o.state.wheres == st.wheres + [Basic("1", "=", ":1", "and")]
      && Lookup(o.state.params, IntKey(1)) == Some(Str("1"))
  {
    WhereOneArgument(st, "1=1", Str("and"));
    assert ["1=1"[0]] == "1";
    assert Substr("1=1", 2, 3) == "1";
    ParamKeyOne();
  }

  /** The column "1" is bound under the integer key 1, and its placeholder reads ":1". */
  lemma ParamKeyOne()
    ensures ParamKey("1") == IntKey(1) && ":" + KeyToStr(ParamKey("1")) == ":1"
  {
    assert ReplaceStr("1", ".", "_") == "1";
    assert IsIntegerKeyString("1") by {
      assert CanonicalDigits("1");
      assert ParseNat("1") == 1;
    }
    assert KeyToStr(IntKey(1)) == "1" by {
      assert NatToStr(1) == "1";
    }
  }

  // ---------------------------------------------------------------------------
  // where: array columns
  // ---------------------------------------------------------------------------

  lemma {:induction false} WhereEntriesPrefix(st: State, a: seq<Entry>, b: seq<Entry>, i: nat)
    requires i <= |a|
    ensures WhereEntries(st, Arr(a + b), i) == WhereEntries(st, Arr(a), i)
  {
    if i > 0 {
      WhereEntriesPrefix(st, a, b, i - 1);
      assert (a + b)[i - 1] == a[i - 1];
    }
  }

  lemma {:induction false} WhereEntriesSuffix(st: State, a: seq<Entry>, b: seq<Entry>, j: nat)
    requires j <= |b|
    ensures var o := WhereEntries(st, Arr(a), |a|);
      WhereEntries(st, Arr(a + b), |a| + j) == if o.thrown then o else WhereEntries(o.state, Arr(b), j)
  {
    var o := WhereEntries(st, Arr(a), |a|);
    if j == 0 {
      WhereEntriesPrefix(st, a, b, |a|);
    } else {
      WhereEntriesSuffix(st, a, b, j - 1);
      assert (a + b)[|a| + j - 1] == b[j - 1];
    }
  }

  /**
   * An array column is processed entry by entry, in order, stopping at the
   * first throw; the operator, value and boolean passed with it are ignored.
   */
  lemma WhereArraySplit(st: State, a: seq<Entry>, b: seq<Entry>, operator: Value, value: Value, boolean: Value)
    requires a != [] && b != []
    ensures var o := WhereSpec(st, Arr(a), Null, Null, Str("and"));
      WhereSpec(st, Arr(a + b), operator, value, boolean)
        == if o.thrown then o else WhereSpec(o.state, Arr(b), Null, Null, Str("and"))
  {
    WhereEntriesSuffix(st, a, b, |b|);
  }

  /** The three kinds of entry of an array column. */
  lemma WhereSingleEntry(st: State, e: Entry)
    ensures e.key.StrKey? && !IsNumericStr(e.key.s) ==>
      WhereSpec(st, Arr([e]), Null, Null, Str("and")) == WhereSpec(st, Str(e.key.s), e.val, Null, Str("and"))
    ensures IsNumericKey(e.key) && !e.val.Arr? ==>
      WhereSpec(st, Arr([e]), Null, Null, Str("and")) == WhereSpec(st, e.val, Null, Null, Str("and"))
    ensures IsNumericKey(e.key) && e.val.Arr? && e.val.entries != [] ==>
      var args := Values(e.val.entries);
      WhereSpec(st, Arr([e]), Null, Null, Str("and"))
        == WhereSpec(st, args[0], ArgAt(args, 1, Null), ArgAt(args, 2, Null), ArgAt(args, 3, Str("and")))
    ensures IsNumericKey(e.key) && e.val.Arr? && e.val.entries == [] ==>
      WhereSpec(st, Arr([e]), Null, Null, Str("and")) == Outcome(st, true)
  {
    assert WhereEntries(st, Arr([e]), 0) == Outcome(st, false);
    assert WhereSpec(st, Arr([e]), Null, Null, Str("and")) == WhereEntries(st, Arr([e]), 1);
    assert WhereEntries(st, Arr([e]), 1) == WhereEntry(st, Arr([e]), 0);
  }

  // ---------------------------------------------------------------------------
  // WHERE rendering: a reference definition
  // ---------------------------------------------------------------------------

  /** What a predicate contributes: its connector word and its text; raw SQL that is falsy contributes nothing. */
  function Fragment(p: Predicate): seq<(string, string)>
  {
    match p
    case Raw(sql, b) => if Truthy(sql) then [(b, ToStr(sql))] else []
    case Basic(c, o, v, b) => [(b, c + " " + o + " " + v)]
  }

  function Emitted(ws: seq<Predicate>): seq<(string, string)>
  {
    if ws == [] then [] else Fragment(ws[0]) + Emitted(ws[1..])
  }

  /** Fragments that follow an earlier one: each after its own upper-cased connector. */
  function Joined(fs: seq<(string, string)>): string
  {
    if fs == [] then "" else Upper(" " + fs[0].0 + " ") + fs[0].1 + Joined(fs[1..])
  }

  /** The WHERE clause of the fragments: the first one's connector is never shown. */
  function Connect(fs: seq<(string, string)>): string
  {
    if fs == [] then "" else " WHERE " + fs[0].1 + Joined(fs[1..])
  }

  lemma {:induction false} EmittedConcat(a: seq<Predicate>, b: seq<Predicate>)
    ensures Emitted(a + b) == Emitted(a) + Emitted(b)
    decreases |a|
  {
    if a == [] {
      assert a + b == b;
    } else {
      assert (a + b)[1..] == a[1..] + b;
      assert (a + b)[0] == a[0];
      EmittedConcat(a[1..], b);
    }
  }

  lemma {:induction false} JoinedAppend(fs: seq<(string, string)>, f: (string, string))
    ensures Joined(fs + [f]) == Joined(fs) + Upper(" " + f.0 + " ") + f.1
    decreases |fs|
  {
    if fs == [] {
      assert [f][1..] == [];
    } else {
      assert (fs + [f])[1..] == fs[1..] + [f];
      assert (fs + [f])[0] == fs[0];
      JoinedAppend(fs[1..], f);
      ConcatAssoc5(Upper(" " + fs[0].0 + " "), fs[0].1, Joined(fs[1..]), Upper(" " + f.0 + " "), f.1);
    }
  }

  lemma ConnectAppend(e: seq<(string, string)>, f: (string, string))
    ensures Connect(e + [f]) == if e == [] then " WHERE " + f.1 else Connect(e) + Upper(" " + f.0 + " ") + f.1
    ensures e != [] ==> |Connect(e)| >= 7
  {
    if e != [] {
      JoinedAppend(e[1..], f);
      assert (e + [f])[1..] == e[1..] + [f];
      assert (e + [f])[0] == e[0];
      ConcatAssoc5(" WHERE ", e[0].1, Joined(e[1..]), Upper(" " + f.0 + " "), f.1);
    } else {
      assert [f][1..] == [];
    }
  }

  lemma WhereStepFragment(acc: string, p: Predicate)
    ensures WhereStep(acc, p) == if Fragment(p) == [] then acc else acc + Connector(acc, Fragment(p)[0].0) + Fragment(p)[0].1
  {
  }

  lemma EmittedSnoc(ws: seq<Predicate>, p: Predicate)
    ensures Emitted(ws + [p]) == Emitted(ws) + Fragment(p)
  {
    EmittedConcat(ws, [p]);
    assert [p][1..] == [];
  }

  /** One more emitted fragment after a clause that already reads as Connect(e). */
  lemma ConnectStep(acc: string, e: seq<(string, string)>, f: (string, string))
    requires acc == Connect(e)
    ensures acc + Connector(acc, f.0) + f.1 == Connect(e + [f])
  {
    ConnectAppend(e, f);
    if e == [] {
      assert Connector(acc, f.0) == " WHERE ";
    } else {
      assert Connector(acc, f.0) == Upper(" " + f.0 + " ");
    }
  }

  /** getPreparedWhere's loop agrees with the reference definition. */
  lemma {:induction false} WhereTextConnect(ws: seq<Predicate>)
    ensures WhereText(ws) == Connect(Emitted(ws))
    decreases |ws|
  {
    if ws != [] {
      var init := ws[..|ws| - 1];
      var p := ws[|ws| - 1];
      WhereTextConnect(init);
      assert ws == init + [p];
      EmittedSnoc(init, p);
      WhereStepFragment(WhereText(init), p);
      if Fragment(p) != [] {
        var e := Emitted(init);
        var acc := WhereText(init);
        var f := Fragment(p)[0];
        assert Fragment(p) == [f];
        ConnectStep(acc, e, f);
        assert WhereText(ws) == WhereStep(acc, p);
        assert Emitted(ws) == e + [f];
      } else {
        assert Emitted(ws) == Emitted(init) + [];
        assert Emitted(init) + [] == Emitted(init);
      }
    }
  }

  /** A raw predicate whose SQL is falsy ("", "0", null) leaves the WHERE clause as if it were absent. */
  lemma WhereTextSkipsFalsyRaw(a: seq<Predicate>, c: seq<Predicate>, sql: Value, boolean: string)
    requires !Truthy(sql)
    ensures WhereText(a + [Raw(sql, boolean)] + c) == WhereText(a + c)
  {
    WhereTextConnect(a + [Raw(sql, boolean)] + c);
    WhereTextConnect(a + c);
    EmittedConcat(a + [Raw(sql, boolean)], c);
    EmittedSnoc(a, Raw(sql, boolean));
    EmittedConcat(a, c);
    assert Fragment(Raw(sql, boolean)) == [];
    assert Emitted(a + [Raw(sql, boolean)]) == Emitted(a);
  }

  /** The connector of the first predicate never shows: the clause always opens with " WHERE ". */
  lemma WhereTextFirstConnector(c: string, o: string, v: string, b1: string, b2: string, rest: seq<Predicate>)
    ensures WhereText([Basic(c, o, v, b1)] + rest) == WhereText([Basic(c, o, v, b2)] + rest)
    ensures WhereText([Basic(c, o, v, b1)] + rest) == " WHERE " + c + " " + o + " " + v + Joined(Emitted(rest))
  {
    WhereTextFirstBasic(c, o, v, b1, rest);
    WhereTextFirstBasic(c, o, v, b2, rest);
  }

  lemma WhereTextFirstBasic(c: string, o: string, v: string, b: string, rest: seq<Predicate>)
    ensures WhereText([Basic(c, o, v, b)] + rest) == " WHERE " + c + " " + o + " " + v + Joined(Emitted(rest))
  {
    var p := Basic(c, o, v, b);
    var f := (b, c + " " + o + " " + v);
    WhereTextConnect([p] + rest);
    EmittedCons(p, rest);
    assert Fragment(p) == [f];
    ConnectCons(f, Emitted(rest));
    WhereHeadText(c, o, v, Joined(Emitted(rest)));
  }

  lemma WhereHeadText(c: string, o: string, v: string, j: string)
    ensures " WHERE " + (c + " " + o + " " + v) + j == " WHERE " + c + " " + o + " " + v + j
  {
  }

  lemma EmittedCons(p: Predicate, rest: seq<Predicate>)
    ensures Emitted([p] + rest) == Fragment(p) + Emitted(rest)
  {
    assert ([p] + rest)[1..] == rest;
  }

  lemma ConnectCons(f: (string, string), rest: seq<(string, string)>)
    ensures Connect([f] + rest) == " WHERE " + f.1 + Joined(rest)
  {
    assert ([f] + rest)[1..] == rest;
  }

  lemma {:induction false} EmittedEmpty(ws: seq<Predicate>)
    ensures Emitted(ws) == [] <==> forall i :: 0 <= i < |ws| ==> ws[i].Raw? && !Truthy(ws[i].sql)
    decreases |ws|
  {
    if ws != [] {
      EmittedEmpty(ws[1..]);
      assert forall i :: 1 <= i < |ws| ==> ws[i] == ws[1..][i - 1];
    }
  }

  /** The clause is empty exactly when every predicate is raw SQL that is falsy; otherwise it opens with " WHERE ". */
  lemma WhereTextEmpty(ws: seq<Predicate>)
    ensures WhereText(ws) == "" <==> forall i :: 0 <= i < |ws| ==> ws[i].Raw? && !Truthy(ws[i].sql)
    ensures WhereText(ws) != "" ==> |WhereText(ws)| >= 7 && WhereText(ws)[..7] == " WHERE "
  {
    WhereTextConnect(ws);
    EmittedEmpty(ws);
  }

  // ---------------------------------------------------------------------------
  // ORDER BY
  // ---------------------------------------------------------------------------

  function PairTexts(ob: seq<Entry>): (r: seq<string>)
    ensures |r| == |ob| && forall i :: 0 <= i < |ob| ==> r[i] == PairText(ob[i])
  {
    seq(|ob|, i requires 0 <= i < |ob| => PairText(ob[i]))
  }

  lemma {:induction false} OrderPairsImplode(ob: seq<Entry>)
    requires ob != []
    ensures OrderPairs(ob) == Implode(", ", PairTexts(ob)) + ", "
    decreases |ob|
  {
    var init := ob[..|ob| - 1];
    var e := ob[|ob| - 1];
    if init == [] {
      assert PairTexts(ob) == [PairText(e)];
    } else {
      OrderPairsImplode(init);
      PairTextsSnoc(ob);
      ImplodeAppend(", ", PairTexts(init), PairText(e));
      OrderPairsStep(OrderPairs(init), Implode(", ", PairTexts(init)), PairText(e));
    }
  }

  lemma PairTextsSnoc(ob: seq<Entry>)
    requires ob != []
    ensures PairTexts(ob) == PairTexts(ob[..|ob| - 1]) + [PairText(ob[|ob| - 1])]
  {
  }

  lemma OrderPairsStep(head: string, joined: string, p: string)
    requires head == joined + ", "
    ensures head + p + ", " == (joined + ", " + p) + ", "
  {
  }

  /** rtrim removes a tail made of characters of `cut` and stops at the first other character. */
  lemma {:induction false} RTrimDropsTail(x: string, y: string, cut: set<char>)
    requires x != [] && x[|x| - 1] !in cut
    requires forall k :: 0 <= k < |y| ==> y[k] in cut
    ensures RTrim(x + y, cut) == x
    decreases |y|
  {
    if y != [] {
      assert (x + y)[..|x + y| - 1] == x + y[..|y| - 1];
      RTrimDropsTail(x, y[..|y| - 1], cut);
    } else {
      assert x + y == x;
    }
  }

  /**
   * ORDER BY lists the "column DIRECTION" pairs joined by ", ", provided the
   * last direction does not itself end in ',' or ' ' (those the trailing rtrim
   * would also remove); no entries render nothing.
   */
  lemma OrderByJoined(ob: seq<Entry>)
    requires ob != [] ==> var d := ToStr(ob[|ob| - 1].val); d != [] && d[|d| - 1] !in OrderTrim
    ensures OrderByText(ob) == if ob == [] then "" else " ORDER BY " + Implode(", ", PairTexts(ob))
  {
    if ob != [] {
      var parts := PairTexts(ob);
      var body := Implode(", ", parts);
      OrderPairsImplode(ob);
      PairTextLast(ob[|ob| - 1]);
      ImplodeLast(", ", parts);
      var x := " ORDER BY " + body;
      assert x[|x| - 1] == body[|body| - 1];
      OrderByTextNonEmpty(ob, body);
      RTrimDropsTail(x, ", ", OrderTrim);
    }
  }

  lemma PairTextLast(e: Entry)
    requires var d := ToStr(e.val); d != []
    ensures var p := PairText(e); var d := ToStr(e.val); p != [] && p[|p| - 1] == d[|d| - 1]
  {
  }

  lemma OrderByTextNonEmpty(ob: seq<Entry>, body: string)
    requires ob != [] && OrderPairs(ob) == body + ", "
    ensures OrderByText(ob) == RTrim(" ORDER BY " + body + ", ", OrderTrim)
  {
    assert " ORDER BY " + OrderPairs(ob) == " ORDER BY " + body + ", ";
  }

  /** The last character of an implode is the last character of the last part. */
  lemma {:induction false} ImplodeLast(sep: string, parts: seq<string>)
    requires parts != [] && parts[|parts| - 1] != []
    ensures var r := Implode(sep, parts); var l := parts[|parts| - 1]; r != [] && r[|r| - 1] == l[|l| - 1]
    decreases |parts|
  {
    if |parts| > 1 {
      ImplodeLast(sep, parts[1..]);
    }
  }

  /**
   * orderBy("c d") is orderBy("c", "d"), a bare column takes the direction
   * argument, either is upper-cased, and the column is stored under itself.
   */
  lemma OrderEntryForms(c: string, d: string, direction: string)
    requires forall k :: 0 <= k < |c| ==> c[k] != ' '
    requires forall k :: 0 <= k < |d| ==> d[k] != ' '
    ensures OrderEntry(c, direction) == (ToKey(c), Upper(direction))
    ensures d != "" && d != "0" ==> OrderEntry(c + " " + d, direction) == (ToKey(c), Upper(d))
    ensures KeyToStr(OrderEntry(c, direction).0) == c
  {
    SplitOnAbsent(c, ' ');
    SplitOnAbsent(d, ' ');
    SplitOnFirst(c, d, ' ');
    assert c + " " + d == c + [' '] + d;
    KeyToStrToKey(c);
  }

  /** The ORDER BY entry for a column written again takes the new direction in the old position. */
  lemma OrderByOverwrites(ob: seq<Entry>, k: Key, d: string, k': Key)
    ensures Lookup(Assign(ob, k, Str(d)), k') == if k' == k then Some(Str(d)) else Lookup(ob, k')
    ensures |Assign(ob, k, Str(d))| == if Lookup(ob, k).Some? then |ob| else |ob| + 1
  {
    LookupAssign(ob, k, Str(d), k');
    AssignLength(ob, k, Str(d));
  }

  // ---------------------------------------------------------------------------
  // LIMIT, OFFSET, HAVING, JOIN
  // ---------------------------------------------------------------------------

  /**
   * limit(n) renders " LIMIT n" except for n = 0, which renders nothing;
   * limit(n, offset) with a truthy offset always renders " LIMIT n, offset".
   */
  lemma LimitRendering(n: nat, offset: Value)
    ensures LimitText(LimitValue(n, offset))
      == if Truthy(offset) then " LIMIT " + IntToStr(n) + ", " + ToStr(offset)
         else if n == 0 then "" else " LIMIT " + IntToStr(n)
  {
    if Truthy(offset) {
      assert |IntToStr(n) + ", " + ToStr(offset)| >= 3;
    }
  }

  /** offset(n) renders " OFFSET n" except for n = 0. */
  lemma OffsetRendering(n: nat)
    ensures OffsetText(Int(n)) == if n == 0 then "" else " OFFSET " + IntToStr(n)
  {
  }

  /** The first having call's boolean is dropped; later ones join with theirs; HAVING always shows once set. */
  lemma HavingChain(h: string, column: string, operator: string, value: string, boolean: string)
    ensures HavingAppend(h, column, operator, value, boolean)
      == if h == "" || h == "0" then h + column + " " + operator + " " + value
         else h + " " + boolean + " " + column + " " + operator + " " + value
    ensures HavingText(HavingAppend(h, column, operator, value, boolean))
      == " HAVING " + HavingAppend(h, column, operator, value, boolean)
  {
    assert |HavingAppend(h, column, operator, value, boolean)| >= 2;
  }

  /** join with both sides named renders "ON (first operator second)"; join with only a raw condition renders "ON (first)". */
  lemma JoinRendering(prefix: string, table: string, first: string, operator: string, second: string, kind: string)
    ensures second != [] && second[|second| - 1] !in TrimWhitespace ==>
      JoinClause(prefix, table, first, operator, second, kind)
        == " " + (if kind == "left" then "LEFT" else "INNER") + " JOIN " + prefix + table
           + " ON (" + first + " " + operator + " " + second + ")"
    ensures JoinClause(prefix, table, first, "", "", kind)
      == " " + (if kind == "left" then "LEFT" else "INNER") + " JOIN " + prefix + table + " ON (" + first + ")"
  {
    var tail := " " + operator + " " + second;
    if second != [] && second[|second| - 1] !in TrimWhitespace {
      assert tail[|tail| - 1] == second[|second| - 1];
    }
    assert RTrim("  ", TrimWhitespace) == "" by {
      assert "  "[..1] == " ";
      assert " "[..0] == "";
    }
  }

  // ---------------------------------------------------------------------------
  // Columns
  // ---------------------------------------------------------------------------

  lemma {:induction false} NextIndexList(vs: seq<Value>)
    ensures NextIndex(ListOf(vs)) == |vs|
    decreases |vs|
  {
    if vs != [] {
      assert ListOf(vs)[..|vs| - 1] == ListOf(vs[..|vs| - 1]);
      NextIndexList(vs[..|vs| - 1]);
    }
  }

  /** array_merge of arrays with integer keys only is the list of their values. */
  lemma {:induction false} RenumberIntKeys(es: seq<Entry>)
    requires forall i :: 0 <= i < |es| ==> es[i].key.IntKey?
    ensures Renumber(es) == ListOf(Values(es))
    decreases |es|
  {
    if es != [] {
      var init := es[..|es| - 1];
      RenumberIntKeys(init);
      assert Values(es) == Values(init) + [es[|es| - 1].val];
      AppendListOf(Values(init), es[|es| - 1].val);
    }
  }

  /** `$a[] = $v` on a list appends `$v` at the next position. */
  lemma AppendListOf(vs: seq<Value>, v: Value)
    ensures Append(ListOf(vs), v) == ListOf(vs + [v])
  {
    NextIndexList(vs);
  }

  /** addSelect of a list after select of a list gives the concatenated list. */
  lemma MergeLists(a: seq<Value>, b: seq<Value>)
    ensures Merge(ListOf(a), ListOf(b)) == ListOf(a + b)
  {
    ListOfIntKeys(a);
    ListOfIntKeys(b);
    IntKeysConcat(ListOf(a), ListOf(b));
    RenumberIntKeys(ListOf(a) + ListOf(b));
    ValuesConcat(ListOf(a), ListOf(b));
  }

  lemma ListOfIntKeys(a: seq<Value>)
    ensures Values(ListOf(a)) == a
    ensures forall i :: 0 <= i < |a| ==> ListOf(a)[i].key.IntKey?
  {
  }

  lemma IntKeysConcat(x: seq<Entry>, y: seq<Entry>)
    requires forall i :: 0 <= i < |x| ==> x[i].key.IntKey?
    requires forall i :: 0 <= i < |y| ==> y[i].key.IntKey?
    ensures forall i :: 0 <= i < |x + y| ==> (x + y)[i].key.IntKey?
  {
  }

  lemma ValuesConcat(x: seq<Entry>, y: seq<Entry>)
    ensures Values(x + y) == Values(x) + Values(y)
  {
  }

  /** The columns a select call sets render as its arguments joined by ", "; no columns render "*". */
  lemma ColumnsRendering(args: seq<Value>)
    requires args == [] || !args[0].Arr?
    ensures ColumnsText(ColumnArgs(args)) == if args == [] then "*" else Implode(", ", Texts(args))
  {
    assert Values(ListOf(args)) == args;
    assert Values(ListOf([Str("*")])) == [Str("*")];
    assert Texts([Str("*")]) == ["*"];
  }

  /** A builder with only a table set selects every column of it. */
  lemma FreshSelect(t: string)
    ensures SelectSql(FreshState().(table := t)) == "SELECT * FROM " + t
  {
    assert ColumnsText([]) == "*" by {
      assert Values(ListOf([Str("*")])) == [Str("*")];
      assert Texts([Str("*")]) == ["*"];
    }
  }

  /** distinct() changes the SELECT only by "DISTINCT " right after "SELECT ". */
  lemma DistinctRendering(st: State)
    ensures |SelectSql(st.(distinct := false))| >= 7
    ensures SelectSql(st.(distinct := true)) == "SELECT DISTINCT " + SelectSql(st.(distinct := false))[7..]
  {
    var c, t, j, w := ColumnsText(st.columns), st.table, JoinsText(st.joins), WhereText(st.wheres);
    var h, g, o, l, f := HavingText(st.having), GroupByText(st.groupBy), OrderByText(st.orderBy), LimitText(st.limit), OffsetText(st.offset);
    var rest := c + " FROM " + t + j + w + h + g + o + l + f;
    SelectRegroup("SELECT " + "DISTINCT ", c, t, j, w, h, g, o, l, f);
    SelectRegroup("SELECT " + "", c, t, j, w, h, g, o, l, f);
    assert "SELECT " + "DISTINCT " == "SELECT DISTINCT ";
    assert "SELECT " + "" == "SELECT ";
    assert SelectSql(st.(distinct := false)) == "SELECT " + rest;
    assert ("SELECT " + rest)[7..] == rest;
  }

  lemma SelectRegroup(p: string, c: string, t: string, j: string, w: string, h: string, g: string, o: string, l: string, f: string)
    ensures p + c + " FROM " + t + j + w + h + g + o + l + f == p + (c + " FROM " + t + j + w + h + g + o + l + f)
  {
  }

  /** Joins render one after another in the order they were added, and none renders nothing. */
  lemma {:induction false} JoinsInOrder(joins: seq<string>, clause: string)
    ensures JoinsText([]) == ""
    ensures JoinsText(joins + [clause]) == JoinsText(joins) + clause
    decreases |joins|
  {
    if joins == [] {
      assert [clause][1..] == [];
    } else {
      assert (joins + [clause])[1..] == joins[1..] + [clause];
      JoinsInOrder(joins[1..], clause);
    }
  }

  /** HAVING shows exactly when the having text is not PHP-empty: "" and "0" render nothing. */
  lemma HavingRendering(h: string)
    ensures HavingText(h) == "" <==> h == "" || h == "0"
    ensures h != "" && h != "0" ==> HavingText(h) == " HAVING " + h
  {
  }

  /** Successive groupBy calls extend one ", "-separated GROUP BY list; without any, nothing renders. */
  lemma GroupByChain(g: seq<Value>, cs: seq<Value>)
    ensures GroupByText([]) == ""
    ensures cs != [] ==>
      GroupByText(g + cs) == (if g == [] then " GROUP BY " else GroupByText(g) + ", ") + Implode(", ", Texts(cs))
  {
    if cs != [] && g != [] {
      assert Texts(g + cs) == Texts(g) + Texts(cs);
      ImplodeConcat(", ", Texts(g), Texts(cs));
    } else if cs != [] {
      assert g + cs == cs;
    }
  }

  /** LIMIT and OFFSET close the SELECT: without them the statement is the same text minus those two clauses. */
  lemma LimitClosesSelect(st: State)
    ensures SelectSql(st) == SelectSql(st.(limit := Int(0), offset := Int(0))) + LimitText(st.limit) + OffsetText(st.offset)
  {
    assert LimitText(Int(0)) == "" && OffsetText(Int(0)) == "";
  }

  /** first() on a builder without limit or offset only appends " LIMIT 1". */
  lemma FirstAppendsLimit(st: State)
    requires !Truthy(st.limit) && !Truthy(st.offset)
    ensures SelectSql(st.(limit := Int(1))) == SelectSql(st) + " LIMIT 1"
  {
    LimitClosesSelect(st);
    LimitClosesSelect(st.(limit := Int(1)));
    assert ToStr(Int(1)) == "1";
  }

  // ---------------------------------------------------------------------------
  // selectRaw and its bindings
  // ---------------------------------------------------------------------------

  /** As written, any bindings behave as none: "price > ?" with 10 bound stays "price > ?". */
  lemma SelectRawIgnoresBindings(columns: seq<Entry>, expression: string, bindings: seq<Entry>)
    ensures RawColumnsAsWritten(columns, expression, bindings) == RawColumns(columns, expression, [])
    ensures RawColumnsAsWritten([], "price > ?", ListOf([Int(10)])) == ListOf([Str("price > ?")])
    ensures RawColumns([], "price > ?", ListOf([Int(10)])) == ListOf([Str("price > 10")])
  {
    RawPriceAsWritten();
    RawPriceBound();
  }

  lemma RawPriceAsWritten()
    ensures RawColumnsAsWritten([], "price > ?", ListOf([Int(10)])) == ListOf([Str("price > ?")])
  {
    assert Append([], Str("price > ?")) == ListOf([Str("price > ?")]);
    MergeLists([Str("price > ?")], []);
    assert [Str("price > ?")] + [] == [Str("price > ?")];
  }

  lemma RawPriceBound()
    ensures RawColumns([], "price > ?", ListOf([Int(10)])) == ListOf([Str("price > 10")])
  {
    BindPriceExample();
    BindingColumnsList("price > ?", [Int(10)]);
    assert BoundTexts("price > ?", [Int(10)]) == [Str("price > 10")];
    MergeLists([], [Str("price > 10")]);
    assert [] + [Str("price > 10")] == [Str("price > 10")];
  }

  lemma BindPriceExample()
    ensures Bind("price > ?", Int(10)) == "price > 10"
  {
    assert IntToStr(10) == "10" by {
      assert NatToStr(10) == NatToStr(1) + [DigitChar(0)];
    }
    assert ToStr(Int(10)) == "10";
    assert "price > ?" == "price > " + "?";
    ReplaceQuestionTail("price > ", "10");
  }

  /** str_replace of '?' in a text whose only '?' is its last character. */
  lemma {:induction false} ReplaceQuestionTail(p: string, r: string)
    requires forall k :: 0 <= k < |p| ==> p[k] != '?'
    ensures ReplaceStr(p + "?", "?", r) == p + r
    decreases |p|
  {
    if p == [] {
      assert p + "?" == "?";
      assert "?"[1..] == "";
    } else {
      assert (p + "?")[..1] == [p[0]];
      assert (p + "?")[1..] == p[1..] + "?";
      ReplaceQuestionTail(p[1..], r);
      assert [p[0]] + (p[1..] + r) == p + r;
    }
  }

  /** The column each bound value yields. */
  function BoundTexts(expression: string, vs: seq<Value>): (r: seq<Value>)
    ensures |r| == |vs| && forall i :: 0 <= i < |vs| ==> r[i] == Str(Bind(expression, vs[i]))
  {
    seq(|vs|, i requires 0 <= i < |vs| => Str(Bind(expression, vs[i])))
  }

  /** A list of bindings yields a list of bound columns, in the same order. */
  lemma {:induction false} BindingColumnsList(expression: string, vs: seq<Value>)
    ensures BindingColumns(expression, ListOf(vs)) == ListOf(BoundTexts(expression, vs))
    decreases |vs|
  {
    if vs != [] {
      var n := |vs|;
      var init := vs[..n - 1];
      ListOfInit(vs);
      BindingColumnsList(expression, init);
      var b := BoundTexts(expression, vs);
      BoundTextsInit(expression, vs);
      BindingColumnsLast(expression, ListOf(vs));
      ListOfSnoc(b[..n - 1], b[n - 1]);
      assert b[..n - 1] + [b[n - 1]] == b;
    }
  }

  lemma BoundTextsInit(expression: string, vs: seq<Value>)
    requires vs != []
    ensures var b := BoundTexts(expression, vs);
      b[..|vs| - 1] == BoundTexts(expression, vs[..|vs| - 1]) && b[|vs| - 1] == Str(Bind(expression, vs[|vs| - 1]))
  {
  }

  lemma BindingColumnsLast(expression: string, bs: seq<Entry>)
    requires bs != []
    ensures BindingColumns(expression, bs)
      == Assign(BindingColumns(expression, bs[..|bs| - 1]), bs[|bs| - 1].key, Str(Bind(expression, bs[|bs| - 1].val)))
  {
  }

  /** Dropping the last value of a list drops its last entry. */
  lemma ListOfInit(vs: seq<Value>)
    requires vs != []
    ensures ListOf(vs)[..|vs| - 1] == ListOf(vs[..|vs| - 1])
    ensures ListOf(vs)[|vs| - 1] == Entry(IntKey(|vs| - 1), vs[|vs| - 1])
  {
  }

  /** Assigning the next integer key of a list appends the value. */
  lemma ListOfSnoc(vs: seq<Value>, v: Value)
    ensures Assign(ListOf(vs), IntKey(|vs|), v) == ListOf(vs + [v])
  {
    assert IndexOf(ListOf(vs), IntKey(|vs|)) == None;
  }

  /** With a list of bindings, selectRaw adds one bound copy of the expression per value, after the existing columns. */
  lemma SelectRawBindsValues(cs: seq<Value>, expression: string, vs: seq<Value>)
    requires vs != []
    ensures RawColumns(ListOf(cs), expression, ListOf(vs)) == ListOf(cs + BoundTexts(expression, vs))
  {
    BindingColumnsList(expression, vs);
    MergeLists(cs, BoundTexts(expression, vs));
  }

  /** str_replace of `c` by a text without `c` leaves no `c`. */
  lemma {:induction false} ReplaceRemovesChar(s: string, c: char, r: string)
    requires forall k :: 0 <= k < |r| ==> r[k] != c
    ensures forall k :: 0 <= k < |ReplaceStr(s, [c], r)| ==> ReplaceStr(s, [c], r)[k] != c
    decreases |s|
  {
    if s != [] {
      ReplaceRemovesChar(s[1..], c, r);
      assert s[..1] == [s[0]];
    }
  }

  /** Each bound column has every '?' filled, provided the value's text has none. */
  lemma BindFillsPlaceholders(expression: string, value: Value)
    requires forall k :: 0 <= k < |ToStr(value)| ==> ToStr(value)[k] != '?'
    ensures forall k :: 0 <= k < |Bind(expression, value)| ==> Bind(expression, value)[k] != '?'
  {
    ReplaceRemovesChar(expression, '?', ToStr(value));
  }

  // ---------------------------------------------------------------------------
  // update and insert
  // ---------------------------------------------------------------------------

  /** The SET list of a PHP array of values: "k = :k" under each key, in the array's order. */
  function SetEntries(es: seq<Entry>): (r: seq<Entry>)
    ensures |r| == |es| && forall i :: 0 <= i < |es| ==> r[i] == Entry(es[i].key, Str(SetTerm(es[i].key)))
  {
    seq(|es|, i requires 0 <= i < |es| => Entry(es[i].key, Str(SetTerm(es[i].key))))
  }

  lemma {:induction false} SetColumnsFresh(es: seq<Entry>)
    requires UniqueKeys(es)
    ensures SetColumns([], es) == SetEntries(es)
    decreases |es|
  {
    if es != [] {
      var init := es[..|es| - 1];
      SetColumnsFresh(init);
      assert SetEntries(es) == SetEntries(init) + [Entry(es[|es| - 1].key, Str(SetTerm(es[|es| - 1].key)))];
    }
  }

  lemma {:induction false} AssignAllFresh(es: seq<Entry>)
    requires UniqueKeys(es)
    ensures AssignAll([], es) == es
    decreases |es|
  {
    if es != [] {
      var init := es[..|es| - 1];
      AssignAllFresh(init);
      assert es == init + [es[|es| - 1]];
    }
  }

  /** After binding the values of an array, each of its keys reads its value and every other key is untouched. */
  lemma {:induction false} AssignAllLookup(p: seq<Entry>, es: seq<Entry>, k: Key)
    requires UniqueKeys(es)
    ensures Lookup(AssignAll(p, es), k) == if Lookup(es, k).Some? then Lookup(es, k) else Lookup(p, k)
    decreases |es|
  {
    if es != [] {
      var init := es[..|es| - 1];
      var e := es[|es| - 1];
      AssignAllLookup(p, init, k);
      LookupAssign(AssignAll(p, init), e.key, e.val, k);
      assert es == init + [e];
      LookupSnoc(init, e, k);
      if k == e.key {
        assert Lookup(init, k).None?;
      }
    }
  }

  /** update($values) sets every column in the array's order and keeps the WHERE clause of the builder. */
  lemma UpdateShape(table: string, values: seq<Entry>, ws: seq<Predicate>)
    requires UniqueKeys(values)
    ensures UpdateSql(table, values, ws) == "UPDATE " + table + " SET " + Implode(", ", SetTerms(values)) + WhereText(ws)
  {
    SetColumnsFresh(values);
    assert Texts(Values(SetEntries(values))) == SetTerms(values);
  }

  /** A single row (its first value is not an array) is inserted as it is, its columns in its own order. */
  lemma InsertSingleRow(table: string, values: seq<Entry>)
    requires values != [] && !values[0].val.Arr? && UniqueKeys(values)
    ensures InsertRows(values) == Some([values])
    ensures InsertSql(table, [values]) == "INSERT INTO " + table + " SET " + Implode(", ", SetTerms(values))
    ensures RowParams([values]) == [values]
  {
    SetColumnsFresh(values);
    AssignAllFresh(values);
    assert [values][..0] == [];
    assert InsertColumns([values]) == SetColumns([], values);
    assert Texts(Values(SetEntries(values))) == SetTerms(values);
  }

  /** Several rows are each key-sorted before insertion, and each keeps its entries. */
  lemma InsertRowsSorted(values: seq<Entry>)
    requires values != [] && values[0].val.Arr?
    requires forall i :: 0 <= i < |values| ==> values[i].val.Arr?
    requires forall i :: 0 <= i < |values| ==> StrKeys(values[i].val.entries) && UniqueKeys(values[i].val.entries)
    ensures InsertRows(values).Some?
    ensures var rows := InsertRows(values).value;
      |rows| == |values|
      && forall i :: 0 <= i < |rows| ==>
        SortedByKey(rows[i]) && multiset(rows[i]) == multiset(values[i].val.entries)
  {
    forall i | 0 <= i < |values|
      ensures SortedByKey(KeySort(values[i].val.entries))
    {
      KeySortSorted(values[i].val.entries);
    }
  }

  lemma {:induction false} SetColumnsAgain(acc: seq<Entry>, es: seq<Entry>)
    requires forall i :: 0 <= i < |es| ==> Lookup(acc, es[i].key) == Some(Str(SetTerm(es[i].key)))
    ensures SetColumns(acc, es) == acc
    decreases |es|
  {
    if es != [] {
      SetColumnsAgain(acc, es[..|es| - 1]);
      AssignSame(acc, es[|es| - 1].key, Str(SetTerm(es[|es| - 1].key)));
    }
  }

  lemma SetEntriesLookup(es: seq<Entry>, j: nat)
    requires UniqueKeys(es) && j < |es|
    ensures Lookup(SetEntries(es), es[j].key) == Some(Str(SetTerm(es[j].key)))
  {
    IndexOfFirst(SetEntries(es), es[j].key, j);
  }

  /** Rows with the same keys in the same order share one SET list: the first row's. */
  lemma {:induction false} InsertColumnsShared(rows: seq<seq<Entry>>, n: nat)
    requires 1 <= n <= |rows| && UniqueKeys(rows[0])
    requires forall i :: 0 <= i < |rows| ==> Keys(rows[i]) == Keys(rows[0])
    ensures InsertColumns(rows[..n]) == SetEntries(rows[0])
    decreases n
  {
    var c := SetEntries(rows[0]);
    if n == 1 {
      assert rows[..1][..0] == [];
      assert rows[..1][0] == rows[0];
      SetColumnsFresh(rows[0]);
    } else {
      assert rows[..n][..n - 1] == rows[..n - 1];
      InsertColumnsShared(rows, n - 1);
      var r := rows[n - 1];
      forall m | 0 <= m < |r|
        ensures Lookup(c, r[m].key) == Some(Str(SetTerm(r[m].key)))
      {
        assert Keys(r)[m] == Keys(rows[0])[m];
        SetEntriesLookup(rows[0], m);
      }
      SetColumnsAgain(c, r);
    }
  }

  lemma InsertSharedTemplate(table: string, rows: seq<seq<Entry>>)
    requires rows != [] && UniqueKeys(rows[0])
    requires forall i :: 0 <= i < |rows| ==> Keys(rows[i]) == Keys(rows[0])
    ensures InsertSql(table, rows) == "INSERT INTO " + table + " SET " + Implode(", ", SetTerms(rows[0]))
  {
    InsertColumnsShared(rows, |rows|);
    assert rows[..|rows|] == rows;
    assert Texts(Values(SetEntries(rows[0]))) == SetTerms(rows[0]);
  }

  // ---------------------------------------------------------------------------
  // The builder and the debug query together
  // ---------------------------------------------------------------------------

  predicate ColonFree(s: string)
  {
    forall k :: 0 <= k < |s| ==> s[k] != ':'
  }

  lemma ColonFreeConcat(a: string, b: string)
    requires ColonFree(a) && ColonFree(b)
    ensures ColonFree(a + b)
  {
    assert forall k :: |a| <= k < |a + b| ==> (a + b)[k] == b[k - |a|];
  }

  /** `table(t)->where(c, v)->delete()` for a column without dots: the placeholder is ":c", bound to v. */
  lemma DeleteAfterWhere(t: string, c: string, v: Value)
    requires c != "" && c != "0" && forall k :: 0 <= k < |c| ==> c[k] != '.'
    requires !v.Null? && !v.Arr?
    ensures var o := WhereSpec(FreshState().(table := t), Str(c), v, Null, Str("and"));
      DeleteSql(t, o.state.wheres) == "DELETE FROM " + t + " WHERE " + c + " = " + (":" + c)
      && Lookup(o.state.params, ToKey(c)) == Some(v)
  {
    var st := FreshState().(table := t);
    var o := WhereSpec(st, Str(c), v, Null, Str("and"));
    WhereTwoArguments(st, c, v, Str("and"));
    ParamKeyWithoutDots(c);
    assert o.state.wheres == [Basic(c, "=", ":" + c, "and")];
    DeleteOneEquality(t, c);
  }

  /**
   * `table(t)->where(c, v)->increment(column, amount, extra)`: the CASE update
   * followed by " WHERE c = :c"; every extra column is bound to its value, and c
   * stays bound to v unless an extra column of the same key rebinds it.
   */
  lemma IncrementAfterWhere(t: string, c: string, v: Value, column: string, amount: Value, extra: seq<Entry>, k: Key)
    requires c != "" && c != "0" && forall i :: 0 <= i < |c| ==> c[i] != '.'
    requires !v.Null? && !v.Arr?
    requires UniqueKeys(extra)
    ensures var o := WhereSpec(FreshState().(table := t), Str(c), v, Null, Str("and"));
      IncrementSql(t, column, amount, extra, o.state.wheres)
        == IncrementSql(t, column, amount, extra, []) + " WHERE " + c + " = " + (":" + c)
      && Lookup(AssignAll(o.state.params, extra), k)
        == if Lookup(extra, k).Some? then Lookup(extra, k) else if k == ToKey(c) then Some(v) else None
  {
    var st := FreshState().(table := t);
    var o := WhereSpec(st, Str(c), v, Null, Str("and"));
    WhereTwoArguments(st, c, v, Str("and"));
    ParamKeyWithoutDots(c);
    assert o.state.wheres == [Basic(c, "=", ":" + c, "and")];
    assert o.state.params == Assign([], ToKey(c), v);
    IncrementOneEquality(t, column, amount, extra, c);
    LookupAssign([], ToKey(c), v, k);
    AssignAllLookup(o.state.params, extra, k);
  }

  lemma IncrementOneEquality(t: string, column: string, amount: Value, extra: seq<Entry>, c: string)
    ensures IncrementSql(t, column, amount, extra, [Basic(c, "=", ":" + c, "and")])
      == IncrementSql(t, column, amount, extra, []) + " WHERE " + c + " = " + (":" + c)
  {
    var head := "UPDATE " + t + " SET " + column + " = CASE WHEN " + column + " >= 0 THEN " + column + " + " + ToStr(amount)
      + " ELSE 0 END" + ExtraText(extra);
    WhereTextOneEquality(c);
    assert IncrementSql(t, column, amount, extra, []) == head;
    ConcatAssoc(head, " WHERE " + c, " = ", ":" + c);
  }

  lemma WhereTextOneEquality(c: string)
    ensures WhereText([Basic(c, "=", ":" + c, "and")]) == " WHERE " + c + " = " + (":" + c)
  {
    var p := Basic(c, "=", ":" + c, "and");
    assert [p][..0] == [];
    assert WhereText([p]) == WhereStep("", p);
    assert Connector("", "and") == " WHERE ";
  }

  lemma DeleteOneEquality(t: string, c: string)
    ensures DeleteSql(t, [Basic(c, "=", ":" + c, "and")]) == "DELETE FROM " + t + " WHERE " + c + " = " + (":" + c)
  {
    var p := Basic(c, "=", ":" + c, "and");
    assert [p][..0] == [];
    assert WhereText([p]) == WhereStep("", p);
    assert Connector("", "and") == " WHERE ";
    assert WhereStep("", p) == " WHERE " + c + " = " + (":" + c);
  }

  /** A column without dots is bound under its own name. */
  lemma ParamKeyWithoutDots(c: string)
    requires forall k :: 0 <= k < |c| ==> c[k] != '.'
    ensures ParamKey(c) == ToKey(c) && KeyToStr(ParamKey(c)) == c
  {
    ReplaceCharAt(c, '.', '_');
    assert ReplaceStr(c, ".", "_") == c;
    KeyToStrToKey(c);
  }

  /**
   * The debug text of `table(t)->where(c, v)->delete()` shows the comparison
   * with the value's literal in place of the placeholder.
   */
  lemma DebugDeleteShowsValue(t: string, c: string, v: Value)
    requires ColonFree(t)
    requires c != "" && c != "0" && forall k :: 0 <= k < |c| ==> DebugStatement.IsNameChar(c[k])
    requires !v.Null? && !v.Arr?
    ensures var o := WhereSpec(FreshState().(table := t), Str(c), v, Null, Str("and"));
      DebugStatement.Reconstruct(DeleteSql(t, o.state.wheres), o.state.params)
        == "DELETE FROM " + t + " WHERE " + c + " = " + DebugStatement.BoundLiteral(Some(v))
  {
    var o := WhereSpec(FreshState().(table := t), Str(c), v, Null, Str("and"));
    DeleteAfterWhere(t, c, v);
    DebugDeleteText(t, c, v, o.state.params);
  }

  lemma DebugDeleteText(t: string, c: string, v: Value, params: seq<Entry>)
    requires ColonFree(t)
    requires c != "" && forall k :: 0 <= k < |c| ==> DebugStatement.IsNameChar(c[k])
    requires Lookup(params, ToKey(c)) == Some(v)
    ensures DebugStatement.Reconstruct("DELETE FROM " + t + " WHERE " + c + " = " + (":" + c), params)
      == "DELETE FROM " + t + " WHERE " + c + " = " + DebugStatement.BoundLiteral(Some(v))
  {
    var pre := "DELETE FROM " + t + " WHERE " + c + " = ";
    assert ColonFree(c);
    ColonFreeConcat("DELETE FROM ", t);
    ColonFreeConcat("DELETE FROM " + t, " WHERE ");
    ColonFreeConcat("DELETE FROM " + t + " WHERE ", c);
    ColonFreeConcat("DELETE FROM " + t + " WHERE " + c, " = ");
    DebugStatement.ReconstructPlainPrefix(pre, ":" + c, params);
    DebugStatement.ReconstructPlaceholder(c, params);
  }
}
