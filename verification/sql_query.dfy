/** What the two query builders share (internal/result/result_storage.go,
    internal/history/query.go): a statement text with `?` placeholders and
    the argument list bound to them, grown one optional clause at a time.
    Running the statement is not part of this model. */
module SqlQuery {
  import opened Outcomes
  import opened Text

  /** A bound argument: a time (an instant, as an integer), text, a flag
      or a number. */
  datatype Arg = TimeArg(t: int) | TextArg(s: string) | BoolArg(b: bool) | IntArg(n: int)

  datatype Query = Query(sql: string, args: seq<Arg>)

  /** Every placeholder in the text has an argument and vice versa. */
  predicate Balanced(q: Query) {
    CountChar(q.sql, '?') == |q.args|
  }

  /** Appending a clause with one placeholder, bound to one argument. */
  function Bind(q: Query, clause: string, arg: Arg): (r: Query)
    requires CountChar(clause, '?') == 1
    ensures Balanced(q) <==> Balanced(r)
    ensures CountChar(r.sql, '?') - |r.args| == CountChar(q.sql, '?') - |q.args|
    ensures r.sql == q.sql + clause && r.args == q.args + [arg]
  {
    CountCharAppend(q.sql, clause, '?');
    Query(q.sql + clause, q.args + [arg])
  }

  /** The argument of a filter, if it is set. */
  function Opt(arg: Option<Arg>): (r: seq<Arg>)
    ensures |r| == if arg.Some? then 1 else 0
  {
    match arg
    case None => []
    case Some(a) => [a]
  }

  /** The text an optional clause contributes: the clause when its filter
      is set, nothing otherwise. */
  function IfSet(arg: Option<Arg>, clause: string): string {
    if arg.Some? then clause else ""
  }

  /** An optional clause: bound when its filter is set, left out
      otherwise. */
  function BindIf(q: Query, clause: string, arg: Option<Arg>): (r: Query)
    requires CountChar(clause, '?') == 1
    ensures Balanced(q) <==> Balanced(r)
    ensures CountChar(r.sql, '?') - |r.args| == CountChar(q.sql, '?') - |q.args|
    ensures r.args == q.args + Opt(arg)
    ensures r.sql == if arg.Some? then q.sql + clause else q.sql
    ensures r.sql == q.sql + IfSet(arg, clause)
  {
    match arg
    case None => q
    case Some(a) => Bind(q, clause, a)
  }

  /** Appending text with no placeholder and no argument. */
  function Append(q: Query, text: string): (r: Query)
    requires '?' !in text
    ensures Balanced(q) <==> Balanced(r)
    ensures r.sql == q.sql + text && r.args == q.args
  {
    CountCharZeroIffAbsent(text, '?');
    CountCharAppend(q.sql, text, '?');
    Query(q.sql + text, q.args)
  }

  /** Appending text spliced into the statement rather than bound: its
      placeholders, if any, come without arguments. */
  function Interpolate(q: Query, text: string): (r: Query)
    ensures CountChar(r.sql, '?') == CountChar(q.sql, '?') + CountChar(text, '?')
    ensures r.sql == q.sql + text && r.args == q.args
  {
    CountCharAppend(q.sql, text, '?');
    Query(q.sql + text, q.args)
  }

  /** Each of these clause texts holds exactly one placeholder: the `?`
      is its last character and occurs nowhere before it. */
  lemma OnePlaceholder(clause: string)
    requires |clause| > 0 && clause[|clause| - 1] == '?' && '?' !in clause[..|clause| - 1]
    ensures CountChar(clause, '?') == 1
  {
    var n := |clause| - 1;
    assert clause == clause[..n] + [clause[n]];
    CountCharAppend(clause[..n], [clause[n]], '?');
    CountCharZeroIffAbsent(clause[..n], '?');
    assert [clause[n]][1..] == [];
  }

  /** Two optional clauses in a row: the texts and the arguments of both,
      in order, and the balance moved by neither. */
  lemma BindTwice(q: Query, c1: string, a1: Option<Arg>, c2: string, a2: Option<Arg>)
    requires CountChar(c1, '?') == 1 && CountChar(c2, '?') == 1
    ensures var r := BindIf(BindIf(q, c1, a1), c2, a2);
      && r.sql == q.sql + (IfSet(a1, c1) + IfSet(a2, c2))
      && r.args == q.args + (Opt(a1) + Opt(a2))
      && StartsWith(r.sql, q.sql)
      && CountChar(r.sql, '?') - |r.args| == CountChar(q.sql, '?') - |q.args|
  {
    var t := IfSet(a1, c1) + IfSet(a2, c2);
    assert q.sql + IfSet(a1, c1) + IfSet(a2, c2) == q.sql + t;
    assert q.args + Opt(a1) + Opt(a2) == q.args + (Opt(a1) + Opt(a2));
    assert (q.sql + t)[..|q.sql|] == q.sql;
  }

  /** A suffix stays a suffix when text is put in front. */
  lemma EndsWithExtended(a: string, b: string, p: string)
    ensures EndsWith(b, p) ==> EndsWith(a + b, p)
  {
    if EndsWith(b, p) {
      assert (a + b)[|a + b| - |p|..] == b[|b| - |p|..];
    }
  }
}
