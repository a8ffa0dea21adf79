/**
 * The positional-to-named parameter binder of db.js and the `query` entry
 * point that binds arguments on a request and sends the rewritten text.
 * The connection pool is a sink that records every statement it receives;
 * what the database answers is a function of everything sent before.
 */
module Db {
  import opened Wrappers
  import opened JsString

  /** The positional placeholder marker. */
  const Marker: char := '?'

  /** How many positional placeholders a template holds. */
  function CountPlaceholders(t: string): (n: nat)
    ensures n <= |t|
  {
    if t == [] then 0 else (if t[0] == Marker then 1 else 0) + CountPlaceholders(t[1..])
  }

  /** A template has no placeholders exactly when it holds no marker. */
  lemma {:induction false} NoPlaceholders(t: string)
    ensures CountPlaceholders(t) == 0 <==> Marker !in t
  {
    if t != [] {
      assert t == [t[0]] + t[1..];
      NoPlaceholders(t[1..]);
    }
  }

  /** The parameter name given to the k-th placeholder: `p${k}`. */
  function ParamName(k: nat): (name: string)
    ensures |name| >= 2 && name[0] == 'p'
    ensures Marker !in name
  {
    "p" + NatToString(k)
  }

  /** The named placeholder written in place of the k-th marker: `@p${k}`. */
  function ParamRef(k: nat): (ref: string)
    ensures Marker !in ref
  {
    "@" + ParamName(k)
  }

  /** Different indices get different names, so no two bindings collide. */
  lemma {:induction false} ParamNamesDistinct(j: nat, k: nat)
    requires j != k
    ensures ParamName(j) != ParamName(k)
  {
    if ParamName(j) == ParamName(k) {
      assert NatToString(j) == ParamName(j)[1..];
      NatToStringInjective(j, k);
    }
  }

  /** The text holds no positional marker. */
  predicate Unmarked(s: string) {
    Marker !in s
  }

  /** The template with every marker replaced, left to right, by the named
      placeholder of its index, counting on from `k`. */
  function Rewrite(t: string, k: nat): (r: string)
    ensures Unmarked(r)
  {
    if t == [] then []
    else if t[0] == Marker then ParamRef(k) + Rewrite(t[1..], k + 1)
    else [t[0]] + Rewrite(t[1..], k)
  }

  /** A template without markers is left unchanged. */
  lemma {:induction false} RewriteWithoutMarkers(t: string, k: nat)
    requires Marker !in t
    ensures CountPlaceholders(t) == 0
    ensures Rewrite(t, k) == t
  {
    if t != [] {
      assert Marker !in t[1..];
      RewriteWithoutMarkers(t[1..], k);
      assert [t[0]] + t[1..] == t;
    }
  }

  /** The markers of a concatenation are those of its parts. */
  lemma {:induction false} CountAppend(a: string, b: string)
    ensures CountPlaceholders(a + b) == CountPlaceholders(a) + CountPlaceholders(b)
  {
    if a == [] {
      assert a + b == b;
    } else {
      assert (a + b)[0] == a[0];
      assert (a + b)[1..] == a[1..] + b;
      CountAppend(a[1..], b);
    }
  }

  /** The same left-to-right rewrite with the naming of the k-th marker
      left open; facts proved for every naming carry over to `Rewrite`
      without depending on how `@p${k}` is spelled. */
  function RewriteNaming(t: string, k: nat, name: nat -> string): string {
    if t == [] then []
    else if t[0] == Marker then name(k) + RewriteNaming(t[1..], k + 1, name)
    else [t[0]] + RewriteNaming(t[1..], k, name)
  }

  /** `Rewrite` is the rewrite that names markers with `ParamRef`. */
  lemma {:induction false} RewriteIsNaming(t: string, k: nat)
    ensures Rewrite(t, k) == RewriteNaming(t, k, ParamRef)
  {
    if t != [] {
      RewriteIsNaming(t[1..], if t[0] == Marker then k + 1 else k);
    }
  }

  lemma {:induction false} RewriteNamingAppend(a: string, b: string, k: nat, name: nat -> string)
    ensures RewriteNaming(a + b, k, name) == RewriteNaming(a, k, name) + RewriteNaming(b, k + CountPlaceholders(a), name)
  {
    if a == [] {
      assert a + b == b;
    } else {
      assert (a + b)[1..] == a[1..] + b;
      RewriteNamingAppend(a[1..], b, if a[0] == Marker then k + 1 else k, name);
    }
  }

  /** Rewriting a concatenation rewrites each part, the second part's
      numbering continuing where the first one's stopped. */
  lemma {:induction false} RewriteAppend(a: string, b: string, k: nat)
    ensures CountPlaceholders(a + b) == CountPlaceholders(a) + CountPlaceholders(b)
    ensures Rewrite(a + b, k) == Rewrite(a, k) + Rewrite(b, k + CountPlaceholders(a))
  {
    CountAppend(a, b);
    RewriteIsNaming(a + b, k);
    RewriteIsNaming(a, k);
    RewriteIsNaming(b, k + CountPlaceholders(a));
    RewriteNamingAppend(a, b, k, ParamRef);
  }

  /** The marker preceded by j markers becomes `@p${j}`, and the text on
      either side of it is rewritten on its own. */
  lemma {:induction false} RewriteNthMarker(before: string, after: string)
    ensures var j := CountPlaceholders(before);
      Rewrite(before + [Marker] + after, 0) == Rewrite(before, 0) + ParamRef(j) + Rewrite(after, j + 1)
  {
    var j := CountPlaceholders(before);
    assert before + [Marker] + after == before + ([Marker] + after);
    RewriteAppend(before, [Marker] + after, 0);
    MarkerThen(after, j);
    Regroup(Rewrite(before, 0), ParamRef(j), Rewrite(after, j + 1));
  }

  /** The named template read as segments: the text between consecutive
      markers, with `@p${k}`, `@p${k+1}`, ... written between them. */
  function Interleave(segments: seq<string>, k: nat): string
    requires |segments| >= 1
  {
    if |segments| == 1 then segments[0]
    else segments[0] + ParamRef(k) + Interleave(segments[1..], k + 1)
  }

  /** Markers joining marker-free segments are counted one per join and
      named in order. */
  lemma {:induction false} RewriteJoin(segments: seq<string>, k: nat)
    requires |segments| >= 1
    requires forall i :: 0 <= i < |segments| ==> Marker !in segments[i]
    ensures CountPlaceholders(Join(segments, Marker)) == |segments| - 1
    ensures Rewrite(Join(segments, Marker), k) == Interleave(segments, k)
  {
    if |segments| == 1 {
      RewriteWithoutMarkers(segments[0], k);
    } else {
      var rest := Join(segments[1..], Marker);
      RewriteJoin(segments[1..], k + 1);
      assert Join(segments, Marker) == segments[0] + ([Marker] + rest);
      JoinStep(segments[0], rest, k);
    }
  }

  /** A marker-free segment, a marker, then text: the marker is the k-th. */
  lemma {:induction false} JoinStep(segment: string, rest: string, k: nat)
    requires Marker !in segment
    ensures CountPlaceholders(segment + ([Marker] + rest)) == 1 + CountPlaceholders(rest)
    ensures Rewrite(segment + ([Marker] + rest), k) == segment + ParamRef(k) + Rewrite(rest, k + 1)
  {
    RewriteWithoutMarkers(segment, k);
    MarkerThen(rest, k);
    RewriteAppend(segment, [Marker] + rest, k);
    Regroup(segment, ParamRef(k), Rewrite(rest, k + 1));
  }

  /** A marker followed by text: named `@p${k}`, then the text rewritten. */
  lemma {:induction false} MarkerThen(t: string, k: nat)
    ensures CountPlaceholders([Marker] + t) == 1 + CountPlaceholders(t)
    ensures Rewrite([Marker] + t, k) == ParamRef(k) + Rewrite(t, k + 1)
  {
    assert ([Marker] + t)[0] == Marker;
    assert ([Marker] + t)[1..] == t;
  }

  /** Concatenation regroups freely. Stated apart so that the callers above
      need not reason about the grouping of the rewritten pieces. */
  lemma {:induction false} Regroup(x: string, y: string, z: string)
    ensures x + (y + z) == x + y + z
  {
  }

  /** Every template, split at its markers: the segments are copied
      unchanged and in order, the j-th marker becomes `@p${j}`, and the
      count is one less than the number of segments. */
  lemma {:induction false} RewriteBySegments(t: string)
    ensures CountPlaceholders(t) == |Split(t, Marker)| - 1
    ensures Rewrite(t, 0) == Interleave(Split(t, Marker), 0)
  {
    RewriteJoin(Split(t, Marker), 0);
  }

  /** The error raised for a template whose marker count is not the number of
      arguments, and the failure of the database call itself. */
  datatype QueryError = Mismatch(expected: nat, received: nat) | DbFailure(message: string)

  const MismatchPrefix: string := "Parameter count mismatch: query expects "
  const MismatchMiddle: string := ", received "

  /** The text of the mismatch error: the fixed prefix, the two counts, a
      closing full stop. */
  function MismatchMessage(expected: nat, received: nat): (m: string)
    ensures |m| > |MismatchPrefix| && m[..|MismatchPrefix|] == MismatchPrefix
    ensures m[|m| - 1] == '.'
  {
    MismatchPrefix + (NatToString(expected) + (MismatchMiddle + (NatToString(received) + ".")))
  }

  lemma {:induction false} CommonPrefix(p: string, a: string, b: string)
    requires p + a == p + b
    ensures a == b
  {
    assert a == (p + a)[|p|..];
    assert b == (p + b)[|p|..];
  }

  /** Two digit strings followed by text starting with a non-digit can only
      be split one way. */
  lemma {:induction false} DigitPrefixUnique(x: string, y: string, x': string, y': string)
    requires x + y == x' + y'
    requires forall i :: 0 <= i < |x| ==> IsDigit(x[i])
    requires forall i :: 0 <= i < |x'| ==> IsDigit(x'[i])
    requires y != [] && !IsDigit(y[0]) && y' != [] && !IsDigit(y'[0])
    ensures x == x' && y == y'
  {
    assert forall i :: 0 <= i < |x| ==> IsDigit((x + y)[i]);
    assert !IsDigit((x + y)[|x|]);
    assert forall i :: 0 <= i < |x'| ==> IsDigit((x' + y')[i]);
    assert !IsDigit((x' + y')[|x'|]);
    assert x == (x + y)[..|x|];
    assert x' == (x' + y')[..|x'|];
    CommonPrefix(x, y, y');
  }

  /** The message carries both counts: they can be read back from it. */
  lemma {:induction false} MismatchMessageInjective(e1: nat, r1: nat, e2: nat, r2: nat)
    requires MismatchMessage(e1, r1) == MismatchMessage(e2, r2)
    ensures e1 == e2 && r1 == r2
  {
    var t1, t2 := NatToString(r1) + ".", NatToString(r2) + ".";
    CommonPrefix(MismatchPrefix, NatToString(e1) + (MismatchMiddle + t1), NatToString(e2) + (MismatchMiddle + t2));
    DigitPrefixUnique(NatToString(e1), MismatchMiddle + t1, NatToString(e2), MismatchMiddle + t2);
    NatToStringInjective(e1, e2);
    CommonPrefix(MismatchMiddle, t1, t2);
    DigitPrefixUnique(NatToString(r1), ".", NatToString(r2), ".");
    NatToStringInjective(r1, r2);
  }

  /** The `message` of the error `query` throws. */
  function ErrorMessage(e: QueryError): (m: string)
    ensures e.Mismatch? ==> m == MismatchMessage(e.expected, e.received)
    ensures e.DbFailure? ==> m == e.message
  {
    match e
    case Mismatch(expected, received) => MismatchMessage(expected, received)
    case DbFailure(message) => message
  }

  /** Two mismatch errors with the same message are the same error: the
      message tells what the template expected and what it received. */
  lemma {:induction false} MismatchErrorsByMessage(e1: QueryError, e2: QueryError)
    requires e1.Mismatch? && e2.Mismatch? && ErrorMessage(e1) == ErrorMessage(e2)
    ensures e1 == e2
  {
    MismatchMessageInjective(e1.expected, e1.received, e2.expected, e2.received);
  }

  /**
   * `buildQueryWithNamedParams`: scan the template left to right, replacing
   * the k-th marker by `@p${k}` and counting the replacements; fail with
   * the two counts when that count is not the number of arguments.
   */
  method BuildQueryWithNamedParams<V>(query: string, params: seq<V>) returns (r: Result<string, QueryError>)
    ensures CountPlaceholders(query) != |params| ==> r == Err(Mismatch(CountPlaceholders(query), |params|))
    ensures CountPlaceholders(query) == |params| ==> r == Ok(Rewrite(query, 0))
  {
    var index := 0;
    var transformed := "";
    var i := 0;
    while i < |query|
      invariant 0 <= i <= |query|
      invariant index + CountPlaceholders(query[i..]) == CountPlaceholders(query)
      invariant transformed + Rewrite(query[i..], index) == Rewrite(query, 0)
    {
      ScanStep(query, i, index, transformed);
      if query[i] == Marker {
        transformed := transformed + ParamRef(index);
        index := index + 1;
      } else {
        transformed := transformed + [query[i]];
      }
      i := i + 1;
    }
    assert query[i..] == [];
    assert transformed + Rewrite(query[i..], index) == transformed;
    if index != |params| {
      return Err(Mismatch(index, |params|));
    }
    return Ok(transformed);
  }

  /** One character of the scan: a marker is replaced by the next name and
      counted, any other character is copied. */
  lemma {:induction false} ScanStep(query: string, i: nat, index: nat, done: string)
    requires i < |query|
    ensures CountPlaceholders(query[i..]) == (if query[i] == Marker then 1 else 0) + CountPlaceholders(query[i + 1..])
    ensures query[i] == Marker ==> done + Rewrite(query[i..], index) == done + ParamRef(index) + Rewrite(query[i + 1..], index + 1)
    ensures query[i] != Marker ==> done + Rewrite(query[i..], index) == done + [query[i]] + Rewrite(query[i + 1..], index)
  {
    assert query[i..][0] == query[i];
    assert query[i..][1..] == query[i + 1..];
    if query[i] == Marker {
      Regroup(done, ParamRef(index), Rewrite(query[i + 1..], index + 1));
    } else {
      Regroup(done, [query[i]], Rewrite(query[i + 1..], index));
    }
  }

  /** A named argument of a request. */
  datatype Binding<V> = Binding(name: string, value: V)

  /** What reaches the database: the named-placeholder text and its arguments. */
  datatype Statement<V> = Statement(text: string, bindings: seq<Binding<V>>)

  /** The arguments bound under `p0`, `p1`, ... in order. */
  function Bindings<V>(params: seq<V>): seq<Binding<V>> {
    seq(|params|, i requires 0 <= i < |params| => Binding(ParamName(i), params[i]))
  }

  /** The value a request holds under `name`; a later input of the same
      name replaces an earlier one. */
  function Lookup<V>(bindings: seq<Binding<V>>, name: string): Option<V> {
    if bindings == [] then None
    else if bindings[|bindings| - 1].name == name then Some(bindings[|bindings| - 1].value)
    else Lookup(bindings[..|bindings| - 1], name)
  }

  /** The statement `query` sends for a template and its arguments, or the
      error it throws instead. */
  function Prepare<V>(query: string, params: seq<V>): (r: Result<Statement<V>, QueryError>)
    ensures r.Err? <==> CountPlaceholders(query) != |params|
    ensures r.Err? ==> r.error == Mismatch(CountPlaceholders(query), |params|)
    ensures r.Ok? ==> Marker !in r.value.text && |r.value.bindings| == |params|
    ensures r.Ok? ==> forall k :: 0 <= k < |params| ==> r.value.bindings[k] == Binding(ParamName(k), params[k])
  {
    if CountPlaceholders(query) != |params| then Err(Mismatch(CountPlaceholders(query), |params|))
    else Ok(Statement(Rewrite(query, 0), Bindings(params)))
  }

  lemma {:induction false} LookupBindings<V>(params: seq<V>, k: nat)
    requires k < |params|
    ensures Lookup(Bindings(params), ParamName(k)) == Some(params[k])
  {
    var bs := Bindings(params);
    var n := |params| - 1;
    if k < n {
      ParamNamesDistinct(n, k);
      assert bs[..n] == Bindings(params[..n]);
      LookupBindings(params[..n], k);
    }
  }

  /** In a prepared statement, the placeholder `@p${k}` names the argument
      `params[k]`, for every k below the marker count. */
  lemma {:induction false} PreparedBindsEveryPlaceholder<V>(query: string, params: seq<V>, k: nat)
    requires Prepare(query, params).Ok?
    requires k < CountPlaceholders(query)
    ensures Lookup(Prepare(query, params).value.bindings, ParamName(k)) == Some(params[k])
  {
    LookupBindings(params, k);
  }

  /** A row of a recordset: column name to value. */
  type Row<V> = map<string, V>

  /** The driver's result object: an optional recordset and the row counts. */
  datatype QueryResult<V> = QueryResult(recordset: Option<seq<Row<V>>>, rowsAffected: Option<seq<int>>)

  /** How one statement ends at the database. */
  datatype Outcome<V> = Done(result: QueryResult<V>) | Failed(message: string)

  /** The database as the pool sees it: the answer to a statement, given
      every statement sent before it. */
  type Database<!V> = (seq<Statement<V>>, Statement<V>) -> Outcome<V>

  /** `result.recordset || []`. */
  function RecordsOf<V>(res: QueryResult<V>): seq<Row<V>> {
    if res.recordset.Some? then res.recordset.value else []
  }

  /** `[result.recordset || [], result]`, or the error the call throws. */
  function Completed<V>(o: Outcome<V>): (r: Result<(seq<Row<V>>, QueryResult<V>), QueryError>)
    ensures o.Done? <==> r.Ok?
    ensures o.Done? ==> r.value.1 == o.result && (o.result.recordset.Some? ==> r.value.0 == o.result.recordset.value)
    ensures o.Done? && o.result.recordset.None? ==> r.value.0 == []
    ensures o.Failed? ==> r == Err(DbFailure(o.message))
  {
    match o
    case Done(res) => Ok((RecordsOf(res), res))
    case Failed(m) => Err(DbFailure(m))
  }

  /** The connection pool, reduced to the log of statements sent through it. */
  class Pool<V> {
    const db: Database<V>
    var sent: seq<Statement<V>>

    constructor(db: Database<V>)
      ensures this.db == db && sent == []
    {
      this.db := db;
      sent := [];
    }

    /** `pool.request()`: a fresh request with no inputs. */
    method NewRequest() returns (r: Request<V>)
      ensures fresh(r) && r.pool == this && r.inputs == []
    {
      r := new Request(this);
    }

    /** Send one statement and receive the database's answer. */
    method Execute(stmt: Statement<V>) returns (o: Outcome<V>)
      modifies this
      ensures sent == old(sent) + [stmt]
      ensures o == db(old(sent), stmt)
    {
      o := db(sent, stmt);
      sent := sent + [stmt];
    }
  }

  /** An mssql request: named inputs added one at a time, then one query. */
  class Request<V> {
    const pool: Pool<V>
    var inputs: seq<Binding<V>>

    constructor(pool: Pool<V>)
      ensures this.pool == pool && inputs == []
    {
      this.pool := pool;
      inputs := [];
    }

    /** `request.input(name, value)`. */
    method Input(name: string, value: V)
      modifies this
      ensures inputs == old(inputs) + [Binding(name, value)]
    {
      inputs := inputs + [Binding(name, value)];
    }

    /** `request.query(text)`: sends the text with every input bound so far. */
    method Query(text: string) returns (o: Outcome<V>)
      modifies pool
      ensures pool.sent == old(pool.sent) + [Statement(text, inputs)]
      ensures o == pool.db(old(pool.sent), Statement(text, inputs))
    {
      o := pool.Execute(Statement(text, inputs));
    }
  }

  /**
   * `query(queryText, params)`: bind `params[i]` as `p${i}` on a fresh
   * request, rewrite the template, and send it. On a count mismatch the
   * error is raised before anything is sent.
   */
  method Query<V>(pool: Pool<V>, queryText: string, params: seq<V>)
    returns (r: Result<(seq<Row<V>>, QueryResult<V>), QueryError>)
    modifies pool
    ensures Prepare(queryText, params).Err? ==>
      r == Err(Prepare(queryText, params).error) && pool.sent == old(pool.sent)
    ensures Prepare(queryText, params).Ok? ==>
      var stmt := Prepare(queryText, params).value;
      pool.sent == old(pool.sent) + [stmt] && r == Completed(pool.db(old(pool.sent), stmt))
  {
    var request := pool.NewRequest();
    for i := 0 to |params|
      invariant request.inputs == Bindings(params[..i])
      invariant pool.sent == old(pool.sent)
    {
      request.Input(ParamName(i), params[i]);
    }
    assert params[..|params|] == params;
    var finalQuery := BuildQueryWithNamedParams(queryText, params);
    if finalQuery.Err? {
      return Err(finalQuery.error);
    }
    var o := request.Query(finalQuery.value);
    r := Completed(o);
  }
}
