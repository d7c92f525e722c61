/**
 * The fluent query builder of Database.php: the builder state, the meaning of
 * every fluent call on that state, the clause renderers, and a class whose
 * methods update the state in place the way the PHP methods do. Executing the
 * rendered SQL is outside the model: every terminal operation returns the SQL
 * text and the parameter array it would hand to the database.
 */
module QueryBuilder {
  import opened PhpValues

  /** One entry of the WHERE list: a column comparison, or a raw SQL fragment. */
  datatype Predicate =
    | Basic(column: string, operator: string, value: string, boolean: string)
    | Raw(sql: Value, boolean: string)

  /** The builder's fields (the table prefix is a constant of the connection). */
  datatype State = State(
    table: string,
    columns: seq<Entry>,
    distinct: bool,
    joins: seq<string>,
    wheres: seq<Predicate>,
    groupBy: seq<Value>,
    orderBy: seq<Entry>,
    having: string,
    limit: Value,
    offset: Value,
    params: seq<Entry>)

  /** The state after a call and whether the call threw (a TypeError or ArgumentCountError). */
  datatype Outcome = Outcome(state: State, thrown: bool)

  /** The SQL text of a terminal operation and the parameters it is executed with. */
  datatype Statement = Statement(sql: string, params: seq<Entry>)

  /** What `insert` does with its argument before execution. */
  datatype InsertOutcome =
    | NothingToInsert
    | RowNotArray
    | Prepared(sql: string, rows: seq<seq<Entry>>)

  function FreshState(): State
  {
    State("", [], false, [], [], [], [], "", Null, Null, [])
  }

  // ---------------------------------------------------------------------------
  // where
  // ---------------------------------------------------------------------------

  /** Which of the call shapes of `where` applies: 2 for one argument, 1 for two, 0 for three. */
  function Rank(operator: Value, value: Value): nat
  {
    if operator.Null? && value.Null? then 2 else if value.Null? then 1 else 0
  }

  /** Argument `i` of a call spread from an array, or the parameter's default. */
  function ArgAt(args: seq<Value>, i: nat, default: Value): Value
  {
    if i < |args| then args[i] else default
  }

  /** The parameter key a column is bound under: every '.' becomes '_'. */
  function ParamKey(column: string): Key
  {
    ToKey(ReplaceStr(column, ".", "_"))
  }

  /** An array value inlined into the SQL text: "(v1, v2, ...)". */
  function InlineList(es: seq<Entry>): string
  {
    "(" + Implode(", ", Texts(Values(es))) + ")"
  }

  /** `o` differs from `st` only in its predicates and parameters, and only appends predicates. */
  predicate Framed(st: State, o: Outcome)
  {
    o.state == st.(wheres := o.state.wheres, params := o.state.params) && st.wheres <= o.state.wheres
  }

  /** `where($column, $operator, $value, $boolean)` applied to a state. */
  function WhereSpec(st: State, column: Value, operator: Value, value: Value, boolean: Value): (o: Outcome)
    ensures Framed(st, o)
    decreases Depth(column), 2, Rank(operator, value)
  {
    if !Truthy(column) then Outcome(st, false)
    else if column.Arr? then WhereEntries(st, column, |column.entries|)
    else if operator.Null? && value.Null? then
      if column.Str? then
        WhereSpec(st, Str(Substr(column.s, 0, 1)), Str("="), Str(Substr(column.s, 2, 3)), boolean)
      else
        Outcome(st, true)
    else if value.Null? then WhereSpec(st, column, Str("="), operator, boolean)
    else if !value.Arr? && !column.Str? then Outcome(st, true)
    else
      var params := if value.Arr? then st.params else Assign(st.params, ParamKey(column.s), value);
      var rendered := if value.Arr? then InlineList(value.entries) else ReplaceStr(":" + ToStr(column), ".", "_");
      var p := Basic(ToStr(column), ToStr(operator), rendered, ToStr(boolean));
      Outcome(st.(params := params, wheres := st.wheres + [p]), false)
  }

  /** The first `n` entries of an array column, one `where` call each, stopping at the first throw. */
  function WhereEntries(st: State, column: Value, n: nat): (o: Outcome)
    requires column.Arr? && n <= |column.entries|
    ensures Framed(st, o)
    decreases Depth(column), 1, n
  {
    if n == 0 then Outcome(st, false)
    else
      var o := WhereEntries(st, column, n - 1);
      if o.thrown then o else WhereEntry(o.state, column, n - 1)
  }

  /** The `where` call that entry `i` of an array column stands for. */
  function WhereEntry(st: State, column: Value, i: nat): (o: Outcome)
    requires column.Arr? && i < |column.entries|
    ensures Framed(st, o)
    decreases Depth(column), 0, 0
  {
    var e := column.entries[i];
    EntryShallower(column, i);
    if IsNumericKey(e.key) && e.val.Arr? then
      var args := Values(e.val.entries);
      if args == [] then Outcome(st, true)
      else
        EntryShallower(e.val, 0);
        WhereSpec(st, args[0], ArgAt(args, 1, Null), ArgAt(args, 2, Null), ArgAt(args, 3, Str("and")))
    else if IsNumericKey(e.key) then WhereSpec(st, e.val, Null, Null, Str("and"))
    else WhereSpec(st, Str(e.key.s), e.val, Null, Str("and"))
  }

  /** Once an entry has thrown, the remaining entries are not processed. */
  lemma {:induction false} WhereEntriesStop(st: State, column: Value, i: nat, n: nat)
    requires column.Arr? && i <= n <= |column.entries|
    requires WhereEntries(st, column, i).thrown
    ensures WhereEntries(st, column, n) == WhereEntries(st, column, i)
    decreases n
  {
    if n > i {
      WhereEntriesStop(st, column, i, n - 1);
    }
  }

  // ---------------------------------------------------------------------------
  // The other fluent calls, as values
  // ---------------------------------------------------------------------------

  /** A PHP list: the values under the keys 0, 1, 2, ... */
  function ListOf(vs: seq<Value>): (a: seq<Entry>)
    ensures |a| == |vs| && forall i :: 0 <= i < |vs| ==> a[i] == Entry(IntKey(i), vs[i])
  {
    seq(|vs|, i requires 0 <= i < |vs| => Entry(IntKey(i), vs[i]))
  }

  /** What `select`/`addSelect` take as columns: an array argument itself, otherwise all arguments, ['*'] when there are none. */
  function ColumnArgs(args: seq<Value>): seq<Entry>
  {
    if args == [] then ListOf([Str("*")])
    else if args[0].Arr? then args[0].entries
    else ListOf(args)
  }

  /** str_replace over the values of an array: non-array values become strings, arrays stay as they are. */
  function ReplaceInValues(a: seq<Entry>, pattern: string, replacement: string): (r: seq<Entry>)
    requires |pattern| > 0
    ensures |r| == |a| && forall i :: 0 <= i < |a| ==> r[i].key == a[i].key
  {
    seq(|a|, i requires 0 <= i < |a| =>
      if a[i].val.Arr? then a[i] else Entry(a[i].key, Str(ReplaceStr(ToStr(a[i].val), pattern, replacement))))
  }

  /** strtr($expression, ['?' => $value]): every '?' becomes the value's text. */
  function Bind(expression: string, value: Value): string
  {
    ReplaceStr(expression, "?", ToStr(value))
  }

  /** `foreach ($bindings as $key => $value) $columns[$key] = strtr(...)`. */
  function BindingColumns(expression: string, bindings: seq<Entry>): seq<Entry>
  {
    if bindings == [] then []
    else
      var last := bindings[|bindings| - 1];
      Assign(BindingColumns(expression, bindings[..|bindings| - 1]), last.key, Str(Bind(expression, last.val)))
  }

  /**
   * The columns `selectRaw` evidently means to leave, before {db_prefix} is
   * replaced: one bound copy of the expression per binding, or the expression
   * itself when there are none.
   */
  function RawColumns(columns: seq<Entry>, expression: string, bindings: seq<Entry>): seq<Entry>
  {
    if bindings != [] then Merge(columns, BindingColumns(expression, bindings))
    else Merge(Append(columns, Str(expression)), [])
  }

  /**
   * The columns `selectRaw` leaves as written, before {db_prefix} is replaced:
   * its test and loop read `$binding`, a variable that is never set, so the
   * bindings are ignored and the expression is always appended.
   */
  function RawColumnsAsWritten(columns: seq<Entry>, expression: string, bindings: seq<Entry>): seq<Entry>
  {
    Merge(Append(columns, Str(expression)), [])
  }

  /** The text `join` appends. */
  function JoinClause(prefix: string, table: string, first: string, operator: string, second: string, kind: string): string
  {
    var joinType := if kind == "left" then "LEFT" else "INNER";
    " " + joinType + " JOIN " + prefix + table + " ON (" + first + RTrim(" " + operator + " " + second, TrimWhitespace) + ")"
  }

  /** The having string after one more `having` call. */
  function HavingAppend(having: string, column: string, operator: string, value: string, boolean: string): string
  {
    having + (if Truthy(Str(having)) then " " + boolean + " " else "") + column + " " + operator + " " + value
  }

  /** The key and direction `orderBy($column, $direction)` stores. */
  function OrderEntry(column: string, direction: string): (Key, string)
  {
    var parts := SplitOn(column, ' ');
    var dir := if |parts| > 1 then parts[1] else "";
    (ToKey(parts[0]), Upper(if Truthy(Str(dir)) then dir else direction))
  }

  /** The limit `limit($value, $offset)` stores for a non-negative value. */
  function LimitValue(value: int, offset: Value): Value
  {
    if Truthy(offset) then Str(IntToStr(value) + ", " + ToStr(offset)) else Int(value)
  }

  // ---------------------------------------------------------------------------
  // Renderers (the getPrepared* methods)
  // ---------------------------------------------------------------------------

  function DistinctText(distinct: bool): string
  {
    if distinct then "DISTINCT " else ""
  }

  /** The column list with `select(['*'])` applied when it is empty. */
  function DefaultColumns(columns: seq<Entry>): seq<Entry>
  {
    if columns == [] then ListOf([Str("*")]) else columns
  }

  function ColumnsText(columns: seq<Entry>): string
  {
    Implode(", ", Texts(Values(DefaultColumns(columns))))
  }

  function JoinsText(joins: seq<string>): string
  {
    Concat(joins)
  }

  /** The connector before a WHERE fragment: " WHERE " while nothing has been emitted. */
  function Connector(acc: string, boolean: string): string
  {
    if Truthy(Str(acc)) then Upper(" " + boolean + " ") else " WHERE "
  }

  function WhereStep(acc: string, p: Predicate): string
  {
    match p
    case Raw(sql, b) => if Truthy(sql) then acc + Connector(acc, b) + ToStr(sql) else acc
    case Basic(c, o, v, b) => acc + Connector(acc, b) + c + " " + o + " " + v
  }

  /** getPreparedWhere. */
  function WhereText(ws: seq<Predicate>): string
  {
    if ws == [] then "" else WhereStep(WhereText(ws[..|ws| - 1]), ws[|ws| - 1])
  }

  function HavingText(having: string): string
  {
    if Truthy(Str(having)) then " HAVING " + having else ""
  }

  function GroupByText(groupBy: seq<Value>): string
  {
    if groupBy != [] then " GROUP BY " + Implode(", ", Texts(groupBy)) else ""
  }

  /** "column direction" for one ORDER BY entry. */
  function PairText(e: Entry): string
  {
    KeyToStr(e.key) + " " + ToStr(e.val)
  }

  function OrderPairs(ob: seq<Entry>): string
  {
    if ob == [] then "" else OrderPairs(ob[..|ob| - 1]) + PairText(ob[|ob| - 1]) + ", "
  }

  lemma OrderPairsSnoc(ob: seq<Entry>, i: nat)
    requires i < |ob|
    ensures OrderPairs(ob[..i + 1]) == OrderPairs(ob[..i]) + PairText(ob[i]) + ", "
  {
    assert ob[..i + 1][..i] == ob[..i];
  }

  const OrderTrim: set<char> := {',', ' '}

  /** getPreparedOrderBy. */
  function OrderByText(ob: seq<Entry>): string
  {
    var order := (if ob != [] then " ORDER BY " else "") + OrderPairs(ob);
    if Truthy(Str(order)) then RTrim(order, OrderTrim) else order
  }

  lemma OrderByTextOf(ob: seq<Entry>, order: string)
    requires order == (if ob != [] then " ORDER BY " else "") + OrderPairs(ob)
    ensures OrderByText(ob) == if Truthy(Str(order)) then RTrim(order, OrderTrim) else order
  {
  }

  function LimitText(limit: Value): string
  {
    if Truthy(limit) then " LIMIT " + ToStr(limit) else ""
  }

  function OffsetText(offset: Value): string
  {
    if Truthy(offset) then " OFFSET " + ToStr(offset) else ""
  }

  /** The SELECT statement `get` executes. */
  function SelectSql(st: State): string
  {
    "SELECT " + DistinctText(st.distinct) + ColumnsText(st.columns) + " FROM " + st.table
      + JoinsText(st.joins) + WhereText(st.wheres) + HavingText(st.having) + GroupByText(st.groupBy)
      + OrderByText(st.orderBy) + LimitText(st.limit) + OffsetText(st.offset)
  }

  // ---------------------------------------------------------------------------
  // insert, update, increment, delete
  // ---------------------------------------------------------------------------

  /** "key = :key". */
  function SetTerm(k: Key): string
  {
    KeyToStr(k) + " = :" + KeyToStr(k)
  }

  /** `foreach ($es as $k => $v) $acc[$k] = "{$k} = :{$k}";` */
  function SetColumns(acc: seq<Entry>, es: seq<Entry>): seq<Entry>
  {
    if es == [] then acc
    else Assign(SetColumns(acc, es[..|es| - 1]), es[|es| - 1].key, Str(SetTerm(es[|es| - 1].key)))
  }

  /** `foreach ($es as $k => $v) $acc[$k] = $v;` */
  function AssignAll(acc: seq<Entry>, es: seq<Entry>): seq<Entry>
  {
    if es == [] then acc
    else Assign(AssignAll(acc, es[..|es| - 1]), es[|es| - 1].key, es[|es| - 1].val)
  }

  function UpdateSql(table: string, values: seq<Entry>, wheres: seq<Predicate>): string
  {
    "UPDATE " + table + " SET " + Implode(", ", Texts(Values(SetColumns([], values)))) + WhereText(wheres)
  }

  function SetTerms(es: seq<Entry>): (r: seq<string>)
    ensures |r| == |es| && forall i :: 0 <= i < |es| ==> r[i] == SetTerm(es[i].key)
  {
    seq(|es|, i requires 0 <= i < |es| => SetTerm(es[i].key))
  }

  /** The ", k = :k, ..." tail `increment` appends for its extra columns. */
  function ExtraText(extra: seq<Entry>): string
  {
    if extra != [] then ", " + Implode(", ", SetTerms(extra)) else ""
  }

  function IncrementSql(table: string, column: string, amount: Value, extra: seq<Entry>, wheres: seq<Predicate>): string
  {
    "UPDATE " + table + " SET " + column + " = CASE WHEN " + column + " >= 0 THEN " + column + " + " + ToStr(amount)
      + " ELSE 0 END" + ExtraText(extra) + WhereText(wheres)
  }

  function DeleteSql(table: string, wheres: seq<Predicate>): string
  {
    "DELETE FROM " + table + WhereText(wheres)
  }

  /**
   * The rows `insert` works on: the argument itself when its first value is not
   * an array, otherwise every value with its keys sorted; None when a later
   * value is not an array (ksort throws a TypeError).
   */
  function InsertRows(values: seq<Entry>): Option<seq<seq<Entry>>>
    requires values != []
  {
    if !values[0].val.Arr? then Some([values])
    else if forall i :: 0 <= i < |values| ==> values[i].val.Arr? then
      Some(seq(|values|, i requires 0 <= i < |values| => KeySort(values[i].val.entries)))
    else None
  }

  /** The SET list of `insert`: every key of every row, in order of first appearance. */
  function InsertColumns(rows: seq<seq<Entry>>): seq<Entry>
  {
    if rows == [] then [] else SetColumns(InsertColumns(rows[..|rows| - 1]), rows[|rows| - 1])
  }

  /** The parameters each row is executed with. */
  function RowParams(rows: seq<seq<Entry>>): (r: seq<seq<Entry>>)
    ensures |r| == |rows| && forall i :: 0 <= i < |rows| ==> r[i] == AssignAll([], rows[i])
  {
    seq(|rows|, i requires 0 <= i < |rows| => AssignAll([], rows[i]))
  }

  function InsertSql(table: string, rows: seq<seq<Entry>>): string
  {
    "INSERT INTO " + table + " SET " + Implode(", ", Texts(Values(InsertColumns(rows))))
  }

  // ---------------------------------------------------------------------------
  // The builder object
  // ---------------------------------------------------------------------------

  class Database {
    const prefix: string
    var table: string
    var columns: seq<Entry>
    var distinct: bool
    var joins: seq<string>
    var wheres: seq<Predicate>
    var groupBy: seq<Value>
    var orderBy: seq<Entry>
    var having: string
    var limit: Value
    var offset: Value
    var params: seq<Entry>

    /** The builder's fields as one value. */
    function Snapshot(): State
      reads this
    {
      State(table, columns, distinct, joins, wheres, groupBy, orderBy, having, limit, offset, params)
    }

    /** A builder on a connection whose tables carry `prefix`. */
    constructor (prefix: string)
      ensures this.prefix == prefix && Snapshot() == FreshState()
    {
      this.prefix := prefix;
      table, columns, distinct, joins, wheres := "", [], false, [], [];
      groupBy, orderBy, having, limit, offset, params := [], [], "", Null, Null, [];
    }

    method Table(name: string)
      modifies this
      ensures Snapshot() == old(Snapshot()).(table := prefix + name)
    {
      table := prefix + name;
    }

    /** select(...$args). */
    method Select(args: seq<Value>)
      modifies this
      ensures Snapshot() == old(Snapshot()).(columns := ColumnArgs(args))
    {
      columns := ColumnArgs(args);
    }

    method Distinct()
      modifies this
      ensures Snapshot() == old(Snapshot()).(distinct := true)
    {
      distinct := true;
    }

    /** addSelect(...$args). */
    method AddSelect(args: seq<Value>)
      modifies this
      ensures Snapshot() == old(Snapshot()).(columns := Merge(old(columns), ColumnArgs(args)))
    {
      columns := Merge(columns, ColumnArgs(args));
    }

    /**
     * selectRaw($expression, $bindings): the test and the loop read `$binding`,
     * which is never set and so is empty, so only the else branch runs: the
     * expression is appended whatever the bindings, and {db_prefix} is replaced
     * in every column.
     */
    method SelectRaw(expression: string, bindings: seq<Entry> := [])
      modifies this
      ensures Snapshot() == old(Snapshot()).(columns :=
        ReplaceInValues(RawColumnsAsWritten(old(columns), expression, bindings), "{db_prefix}", prefix))
    {
      var added: seq<Entry> := [];
      columns := Append(columns, Str(expression));
      columns := ReplaceInValues(Merge(columns, added), "{db_prefix}", prefix);
    }

    method Join(table: string, first: string, operator: string := "", second: string := "", kind: string := "inner")
      modifies this
      ensures Snapshot() == old(Snapshot()).(joins := old(joins) + [JoinClause(prefix, table, first, operator, second, kind)])
    {
      joins := joins + [JoinClause(prefix, table, first, operator, second, kind)];
    }

    method LeftJoin(table: string, first: string, operator: string := "", second: string := "")
      modifies this
      ensures Snapshot() == old(Snapshot()).(joins := old(joins) + [JoinClause(prefix, table, first, operator, second, "left")])
    {
      Join(table, first, operator, second, "left");
    }

    /** where($column, $operator, $value, $boolean); `thrown` when PHP would throw. */
    method Where(column: Value, operator: Value := Null, value: Value := Null, boolean: Value := Str("and"))
      returns (thrown: bool)
      modifies this
      ensures Snapshot() == WhereSpec(old(Snapshot()), column, operator, value, boolean).state
      ensures thrown == WhereSpec(old(Snapshot()), column, operator, value, boolean).thrown
      decreases Depth(column), 2, Rank(operator, value)
    {
      if !Truthy(column) {
        return false;
      }
      if column.Arr? {
        thrown := WhereEach(column);
        return;
      }
      if operator.Null? && value.Null? {
        if !column.Str? {
          return true;
        }
        thrown := Where(Str(Substr(column.s, 0, 1)), Str("="), Str(Substr(column.s, 2, 3)), boolean);
        return;
      }
      if value.Null? {
        thrown := Where(column, Str("="), operator, boolean);
        return;
      }
      if !value.Arr? {
        if !column.Str? {
          return true;
        }
        params := Assign(params, ParamKey(column.s), value);
      }
      var rendered := if value.Arr? then InlineList(value.entries) else ReplaceStr(":" + ToStr(column), ".", "_");
      wheres := wheres + [Basic(ToStr(column), ToStr(operator), rendered, ToStr(boolean))];
      thrown := false;
    }

    /** The loop of `where` over an array column: one call per entry, stopping at the first that throws. */
    method WhereEach(column: Value) returns (thrown: bool)
      requires column.Arr?
      modifies this
      ensures Snapshot() == WhereEntries(old(Snapshot()), column, |column.entries|).state
      ensures thrown == WhereEntries(old(Snapshot()), column, |column.entries|).thrown
      decreases Depth(column), 1, 0
    {
      ghost var start := Snapshot();
      var es := column.entries;
      var i := 0;
      while i < |es|
        invariant 0 <= i <= |es|
        invariant WhereEntries(start, column, i) == Outcome(Snapshot(), false)
      {
        thrown := WhereAt(column, i);
        if thrown {
          WhereEntriesStop(start, column, i + 1, |es|);
          return;
        }
        i := i + 1;
      }
      return false;
    }

    /** The `where` call that entry `i` of an array column stands for. */
    method WhereAt(column: Value, i: nat) returns (thrown: bool)
      requires column.Arr? && i < |column.entries|
      modifies this
      ensures Snapshot() == WhereEntry(old(Snapshot()), column, i).state
      ensures thrown == WhereEntry(old(Snapshot()), column, i).thrown
      decreases Depth(column), 0, 0
    {
      var e := column.entries[i];
      EntryShallower(column, i);
      if IsNumericKey(e.key) && e.val.Arr? {
        var args := Values(e.val.entries);
        if args == [] {
          return true;
        }
        EntryShallower(e.val, 0);
        thrown := Where(args[0], ArgAt(args, 1, Null), ArgAt(args, 2, Null), ArgAt(args, 3, Str("and")));
      } else if IsNumericKey(e.key) {
        thrown := Where(e.val);
      } else {
        thrown := Where(Str(e.key.s), e.val);
      }
    }

    method OrWhere(column: Value, operator: Value := Null, value: Value := Null) returns (thrown: bool)
      modifies this
      ensures Snapshot() == WhereSpec(old(Snapshot()), column, operator, value, Str("or")).state
      ensures thrown == WhereSpec(old(Snapshot()), column, operator, value, Str("or")).thrown
    {
      thrown := Where(column, operator, value, Str("or"));
    }

    method WhereIn(column: Value, values: Value, boolean: string := "and", negate: bool := false) returns (thrown: bool)
      modifies this
      ensures var op := Str(if negate then "NOT IN" else "IN");
        Snapshot() == WhereSpec(old(Snapshot()), column, op, values, Str(boolean)).state
        && thrown == WhereSpec(old(Snapshot()), column, op, values, Str(boolean)).thrown
    {
      thrown := Where(column, Str(if negate then "NOT IN" else "IN"), values, Str(boolean));
    }

    method OrWhereIn(column: Value, values: Value, boolean: string := "or", negate: bool := false) returns (thrown: bool)
      modifies this
      ensures var op := Str(if negate then "NOT IN" else "IN");
        Snapshot() == WhereSpec(old(Snapshot()), column, op, values, Str(boolean)).state
        && thrown == WhereSpec(old(Snapshot()), column, op, values, Str(boolean)).thrown
    {
      thrown := WhereIn(column, values, boolean, negate);
    }

    method WhereNotIn(column: Value, values: Value, boolean: string := "and") returns (thrown: bool)
      modifies this
      ensures Snapshot() == WhereSpec(old(Snapshot()), column, Str("NOT IN"), values, Str(boolean)).state
      ensures thrown == WhereSpec(old(Snapshot()), column, Str("NOT IN"), values, Str(boolean)).thrown
    {
      thrown := WhereIn(column, values, boolean, true);
    }

    method OrWhereNotIn(column: Value, values: Value) returns (thrown: bool)
      modifies this
      ensures Snapshot() == WhereSpec(old(Snapshot()), column, Str("NOT IN"), values, Str("or")).state
      ensures thrown == WhereSpec(old(Snapshot()), column, Str("NOT IN"), values, Str("or")).thrown
    {
      thrown := WhereNotIn(column, values, "or");
    }

    method WhereRaw(sql: Value, bindings: seq<Entry> := [], boolean: string := "and")
      modifies this
      ensures Snapshot() == old(Snapshot()).(wheres := old(wheres) + [Raw(sql, boolean)], params := Merge(old(params), bindings))
    {
      wheres := wheres + [Raw(sql, boolean)];
      params := Merge(params, bindings);
    }

    method OrWhereRaw(sql: Value, bindings: seq<Entry> := [])
      modifies this
      ensures Snapshot() == old(Snapshot()).(wheres := old(wheres) + [Raw(sql, "or")], params := Merge(old(params), bindings))
    {
      WhereRaw(sql, bindings, "or");
    }

    method Having(column: string, operator: string := "", value: string := "", boolean: string := "and")
      modifies this
      ensures Snapshot() == old(Snapshot()).(having := HavingAppend(old(having), column, operator, value, boolean))
    {
      having := HavingAppend(having, column, operator, value, boolean);
    }

    /** groupBy(...$columns). */
    method GroupBy(cs: seq<Value>)
      modifies this
      ensures Snapshot() == old(Snapshot()).(groupBy := old(groupBy) + cs)
    {
      var i := 0;
      while i < |cs|
        invariant 0 <= i <= |cs|
        invariant Snapshot() == old(Snapshot()).(groupBy := old(groupBy) + cs[..i])
      {
        groupBy := groupBy + [cs[i]];
        assert cs[..i + 1] == cs[..i] + [cs[i]];
        i := i + 1;
      }
      assert cs[..|cs|] == cs;
    }

    method OrderBy(column: string, direction: string := "ASC")
      modifies this
      ensures Snapshot() == old(Snapshot()).(orderBy :=
        Assign(old(orderBy), OrderEntry(column, direction).0, Str(OrderEntry(column, direction).1)))
    {
      var (k, d) := OrderEntry(column, direction);
      orderBy := Assign(orderBy, k, Str(d));
    }

    method Limit(value: int, offset: Value := Null)
      modifies this
      ensures Snapshot() == if value >= 0 then old(Snapshot()).(limit := LimitValue(value, offset)) else old(Snapshot())
    {
      if value >= 0 {
        limit := Int(value);
        if Truthy(offset) {
          limit := Str(IntToStr(value) + ", " + ToStr(offset));
        }
      }
    }

    method Offset(value: int)
      modifies this
      ensures Snapshot() == if value >= 0 then old(Snapshot()).(offset := Int(value)) else old(Snapshot())
    {
      if value >= 0 {
        offset := Int(value);
      }
    }

    // -------------------------------------------------------------------------
    // Renderers and terminal operations
    // -------------------------------------------------------------------------

    /** getPreparedColumns: defaults the column list to ['*'] as a side effect. */
    method PreparedColumns() returns (text: string)
      modifies this
      ensures text == ColumnsText(old(columns))
      ensures Snapshot() == old(Snapshot()).(columns := DefaultColumns(old(columns)))
    {
      if columns == [] {
        Select([Arr(ListOf([Str("*")]))]);
      }
      text := Implode(", ", Texts(Values(columns)));
    }

    /** getPreparedWhere. */
    method PreparedWhere() returns (result: string)
      ensures result == WhereText(wheres)
    {
      result := "";
      var i := 0;
      while i < |wheres|
        invariant 0 <= i <= |wheres|
        invariant result == WhereText(wheres[..i])
      {
        match wheres[i] {
          case Raw(sql, b) =>
            if Truthy(sql) {
              result := result + (if Truthy(Str(result)) then Upper(" " + b + " ") else " WHERE ") + ToStr(sql);
            }
          case Basic(c, o, v, b) =>
            result := result + (if Truthy(Str(result)) then Upper(" " + b + " ") else " WHERE ") + c + " " + o + " " + v;
        }
        assert wheres[..i + 1][..i] == wheres[..i];
        i := i + 1;
      }
      assert wheres[..|wheres|] == wheres;
    }

    /** getPreparedOrderBy. */
    method PreparedOrderBy() returns (order: string)
      ensures order == OrderByText(orderBy)
    {
      order := RenderOrderBy(orderBy);
    }

    /** The loop of getPreparedOrderBy over the stored entries. */
    static method RenderOrderBy(ob: seq<Entry>) returns (order: string)
      ensures order == OrderByText(ob)
    {
      order := if ob != [] then " ORDER BY " else "";
      ghost var head := order;
      var i := 0;
      while i < |ob|
        invariant 0 <= i <= |ob|
        invariant order == head + OrderPairs(ob[..i])
      {
        var pair := KeyToStr(ob[i].key) + " " + ToStr(ob[i].val);
        OrderPairsSnoc(ob, i);
        ConcatAssoc(head, OrderPairs(ob[..i]), pair, ", ");
        order := order + pair + ", ";
        i := i + 1;
      }
      assert ob[..|ob|] == ob;
      OrderByTextOf(ob, order);
      if Truthy(Str(order)) {
        order := RTrim(order, OrderTrim);
      }
    }

    /** get: the SELECT statement with every clause in its fixed place. */
    method Get() returns (stmt: Statement)
      modifies this
      ensures stmt == Statement(SelectSql(old(Snapshot())), params)
      ensures Snapshot() == old(Snapshot()).(columns := DefaultColumns(old(columns)))
    {
      var distinctText := DistinctText(distinct);
      var columnsText := PreparedColumns();
      var joinsText := JoinsText(joins);
      var whereText := PreparedWhere();
      var havingText := HavingText(having);
      var groupText := GroupByText(groupBy);
      var orderText := PreparedOrderBy();
      var limitText := LimitText(limit);
      var offsetText := OffsetText(offset);
      var sql := "SELECT " + distinctText + columnsText + " FROM " + table + joinsText + whereText + havingText
        + groupText + orderText + limitText + offsetText;
      stmt := Statement(sql, params);
    }

    /** first($columns): select, limit 1, get. */
    method First(columns: Value := Arr(ListOf([Str("*")]))) returns (stmt: Statement)
      modifies this
      ensures var st := old(Snapshot()).(columns := ColumnArgs([columns]), limit := Int(1));
        stmt == Statement(SelectSql(st), params) && Snapshot() == st.(columns := DefaultColumns(st.columns))
    {
      Select([columns]);
      Limit(1);
      stmt := Get();
    }

    /** value($column): the first row's single column. */
    method SingleValue(column: Value) returns (stmt: Statement)
      modifies this
      ensures var st := old(Snapshot()).(columns := ColumnArgs([column]), limit := Int(1));
        stmt == Statement(SelectSql(st), params) && Snapshot() == st.(columns := DefaultColumns(st.columns))
    {
      Select([column]);
      Limit(1);
      stmt := Get();
    }

    /** find($id, $uniqueKey, $columns): where($uniqueKey, $id), then first($columns). */
    method Find(id: Value, uniqueKey: string := "id", columns: Value := Arr(ListOf([Str("*")])))
      returns (stmt: Option<Statement>)
      modifies this
      ensures var o := WhereSpec(old(Snapshot()), Str(uniqueKey), id, Null, Str("and"));
        var st := o.state.(columns := ColumnArgs([columns]), limit := Int(1));
        if o.thrown then stmt == None && Snapshot() == o.state
        else stmt == Some(Statement(SelectSql(st), st.params)) && Snapshot() == st.(columns := DefaultColumns(st.columns))
    {
      var thrown := Where(Str(uniqueKey), id);
      if thrown {
        return None;
      }
      var s := First(columns);
      stmt := Some(s);
    }

    /** update($values): bind every value under its own key and set every column. */
    method Update(values: seq<Entry>) returns (stmt: Statement)
      modifies this
      ensures Snapshot() == old(Snapshot()).(params := AssignAll(old(params), values))
      ensures stmt == Statement(UpdateSql(table, values, wheres), params)
    {
      var cols;
      cols, params := UpdateColumns(params, values);
      var whereText := PreparedWhere();
      stmt := Statement("UPDATE " + table + " SET " + Implode(", ", Texts(Values(cols))) + whereText, params);
    }

    /** increment($column, $amount, $extra): None when the amount is not numeric. */
    method Increment(column: string, amount: Value := Int(1), extra: seq<Entry> := []) returns (stmt: Option<Statement>)
      modifies this
      ensures !IsNumeric(amount) ==> stmt == None && Snapshot() == old(Snapshot())
      ensures IsNumeric(amount) ==>
        Snapshot() == old(Snapshot()).(params := AssignAll(old(params), extra))
        && stmt == Some(Statement(IncrementSql(table, column, amount, extra, wheres), params))
    {
      if !IsNumeric(amount) {
        return None;
      }
      var updates;
      updates, params := ExtraUpdates(params, extra);
      var extraText := if updates != [] then ", " + Implode(", ", updates) else "";
      assert extraText == ExtraText(extra);
      var whereText := PreparedWhere();
      var sql := "UPDATE " + table + " SET " + column + " = CASE WHEN " + column + " >= 0 THEN " + column + " + "
        + ToStr(amount) + " ELSE 0 END" + extraText + whereText;
      stmt := Some(Statement(sql, params));
    }

    /** decrement: increment by the negated amount. */
    method Decrement(column: string, amount: int := 1, extra: seq<Entry> := []) returns (stmt: Option<Statement>)
      modifies this
      ensures Snapshot() == old(Snapshot()).(params := AssignAll(old(params), extra))
      ensures stmt == Some(Statement(IncrementSql(table, column, Int(-amount), extra, wheres), params))
    {
      stmt := Increment(column, Int(-amount), extra);
    }

    method Delete() returns (stmt: Statement)
      ensures stmt == Statement(DeleteSql(table, wheres), params)
    {
      var whereText := PreparedWhere();
      stmt := Statement("DELETE FROM " + table + whereText, params);
    }

    /** The loop of `update`: one "k = :k" column and one parameter per value, later keys overwriting earlier ones. */
    static method UpdateColumns(params0: seq<Entry>, values: seq<Entry>) returns (cols: seq<Entry>, params1: seq<Entry>)
      ensures cols == SetColumns([], values) && params1 == AssignAll(params0, values)
    {
      cols := [];
      params1 := params0;
      var i := 0;
      while i < |values|
        invariant 0 <= i <= |values|
        invariant cols == SetColumns([], values[..i])
        invariant params1 == AssignAll(params0, values[..i])
      {
        cols := Assign(cols, values[i].key, Str(SetTerm(values[i].key)));
        params1 := Assign(params1, values[i].key, values[i].val);
        assert values[..i + 1][..i] == values[..i];
        i := i + 1;
      }
      assert values[..|values|] == values;
    }

    /** The loop of `increment` over its extra columns: one "k = :k" term and one parameter per entry. */
    static method ExtraUpdates(params0: seq<Entry>, extra: seq<Entry>) returns (updates: seq<string>, params1: seq<Entry>)
      ensures updates == SetTerms(extra) && params1 == AssignAll(params0, extra)
    {
      updates := [];
      params1 := params0;
      var i := 0;
      while i < |extra|
        invariant 0 <= i <= |extra|
        invariant updates == SetTerms(extra[..i])
        invariant params1 == AssignAll(params0, extra[..i])
      {
        updates := updates + [SetTerm(extra[i].key)];
        params1 := Assign(params1, extra[i].key, extra[i].val);
        assert extra[..i + 1][..i] == extra[..i];
        i := i + 1;
      }
      assert extra[..|extra|] == extra;
    }

    /** One row of the column-collecting loop of `insert`. */
    static method CollectRow(cols0: seq<Entry>, row: seq<Entry>) returns (cols: seq<Entry>, p: seq<Entry>)
      ensures cols == SetColumns(cols0, row) && p == AssignAll([], row)
    {
      cols := cols0;
      p := [];
      var j := 0;
      while j < |row|
        invariant 0 <= j <= |row|
        invariant cols == SetColumns(cols0, row[..j])
        invariant p == AssignAll([], row[..j])
      {
        cols := Assign(cols, row[j].key, Str(SetTerm(row[j].key)));
        p := Assign(p, row[j].key, row[j].val);
        assert row[..j + 1][..j] == row[..j];
        j := j + 1;
      }
      assert row[..|row|] == row;
    }

    /** The SET list and the per-row parameters `insert` builds from its rows. */
    static method CollectRows(rows: seq<seq<Entry>>) returns (cols: seq<Entry>, rowParams: seq<seq<Entry>>)
      ensures cols == InsertColumns(rows) && rowParams == RowParams(rows)
    {
      cols := [];
      rowParams := [];
      var i := 0;
      while i < |rows|
        invariant 0 <= i <= |rows|
        invariant cols == InsertColumns(rows[..i])
        invariant rowParams == RowParams(rows[..i])
      {
        var p;
        cols, p := CollectRow(cols, rows[i]);
        assert rows[..i + 1][..i] == rows[..i];
        rowParams := rowParams + [p];
        i := i + 1;
      }
      assert rows[..|rows|] == rows;
    }

    /** The row normalisation of `insert`: a flat array is one row, otherwise every row is key-sorted. */
    static method NormaliseRows(values: seq<Entry>) returns (rows: Option<seq<seq<Entry>>>)
      requires values != []
      ensures rows == InsertRows(values)
    {
      if !values[0].val.Arr? {
        return Some([values]);
      }
      var sorted: seq<seq<Entry>> := [];
      var i := 0;
      while i < |values|
        invariant 0 <= i <= |values|
        invariant forall j :: 0 <= j < i ==> values[j].val.Arr?
        invariant sorted == seq(i, j requires 0 <= j < i => KeySort(values[j].val.entries))
      {
        if !values[i].val.Arr? {
          return None;
        }
        sorted := sorted + [KeySort(values[i].val.entries)];
        i := i + 1;
      }
      return Some(sorted);
    }

    /** The execution loop of `insert`: each row's parameters in turn become the statement's. */
    method ExecuteRows(rowParams: seq<seq<Entry>>)
      requires rowParams != []
      modifies this
      ensures Snapshot() == old(Snapshot()).(params := rowParams[|rowParams| - 1])
    {
      var k := 0;
      while k < |rowParams|
        invariant 0 <= k <= |rowParams|
        invariant Snapshot() == old(Snapshot()).(params := if k == 0 then old(params) else rowParams[k - 1])
      {
        params := rowParams[k];
        k := k + 1;
      }
    }

    /** insert($values): one shared INSERT ... SET template; each row's parameters become the builder's in turn. */
    method Insert(values: seq<Entry>) returns (r: InsertOutcome)
      modifies this
      ensures values == [] ==> r == NothingToInsert && Snapshot() == old(Snapshot())
      ensures values != [] && InsertRows(values).None? ==> r == RowNotArray && Snapshot() == old(Snapshot())
      ensures values != [] && InsertRows(values).Some? ==>
        var rows := InsertRows(values).value;
        |rows| > 0
        && r == Prepared(InsertSql(table, rows), RowParams(rows))
        && Snapshot() == old(Snapshot()).(params := AssignAll([], rows[|rows| - 1]))
    {
      if values == [] {
        return NothingToInsert;
      }
      var sorted := NormaliseRows(values);
      if sorted.None? {
        return RowNotArray;
      }
      var rows := sorted.value;
      var cols, rowParams := CollectRows(rows);
      var sql := "INSERT INTO " + table + " SET " + Implode(", ", Texts(Values(cols)));
      ExecuteRows(rowParams);
      r := Prepared(sql, rowParams);
    }
  }
}
