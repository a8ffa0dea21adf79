/**
 * The two route handlers of server.js: the query text and arguments each
 * one builds, the order in which it consults validation and the database,
 * and the response it shapes from the database's answers. Validation and
 * `JSON.parse` are functions given to the handlers; the database is the
 * pool of the Db module.
 */
module Server {
  import opened Wrappers
  import opened JsString
  import opened Db

  /** A JavaScript value as the handlers receive it. */
  datatype JsValue =
    | Undefined
    | Null
    | Bool(b: bool)
    | Number(x: real)
    | Str(s: string)
    | Array(items: seq<JsValue>)
    | Object(props: map<string, JsValue>)

  /** JavaScript truthiness. */
  predicate Truthy(v: JsValue) {
    match v
    case Undefined => false
    case Null => false
    case Bool(b) => b
    case Number(x) => x != 0.0
    case Str(s) => s != ""
    case Array(_) => true
    case Object(_) => true
  }

  /** `v[key]` on a value that is neither null nor undefined: the property
      if `v` is an object holding it, `undefined` otherwise. */
  function Get(v: JsValue, key: string): JsValue {
    if v.Object? && key in v.props then v.props[key] else Undefined
  }

  /** The body of a response. */
  datatype Body =
    | Message(message: string)
    | Records(rows: seq<Row<JsValue>>)
    | ProductAdded(message: string, productId: JsValue, affectedRows: int)
    | ProductsAdded(message: string, productIds: seq<JsValue>, totalInserted: int)

  datatype Response = Response(status: nat, body: Body)

  const UnexpectedError: string := "An unexpected error occurred."
  const ProductAddedMessage: string := "Product added successfully"
  const ProductsAddedMessage: string := "Products added successfully"

  // ---------------------------------------------------------------------
  // GET /products
  // ---------------------------------------------------------------------

  const SelectBase: string := "SELECT * FROM products WHERE 1=1"

  /** The query-string keys the filter looks at, in the order it looks. */
  const FilterColumns: seq<string> := ["category", "color", "size"]

  /** `" AND <column> = ?"`. */
  function Clause(column: string): string {
    " AND " + column + " = " + [Marker]
  }

  /** The condition for one column: the column with its value when that
      value is truthy, nothing otherwise. */
  function Condition(query: JsValue, column: string): seq<(string, JsValue)> {
    if Truthy(Get(query, column)) then [(column, Get(query, column))] else []
  }

  /** The columns among `columns` whose value in `query` is truthy, each
      with that value, in the order of `columns`. */
  function Present(query: JsValue, columns: seq<string>): (conds: seq<(string, JsValue)>)
    ensures |conds| <= |columns|
    ensures forall i :: 0 <= i < |conds| ==> conds[i].0 in columns && Truthy(conds[i].1) && conds[i].1 == Get(query, conds[i].0)
  {
    if columns == [] then [] else Condition(query, columns[0]) + Present(query, columns[1..])
  }

  /** The filters a request applies: category, color and size, when truthy. */
  function FilterConditions(query: JsValue): seq<(string, JsValue)> {
    Present(query, FilterColumns)
  }

  /** The text of the filtered select for a list of conditions. */
  function FilterSql(conds: seq<(string, JsValue)>): (sql: string)
    ensures ExtendsSelect(sql)
  {
    if conds == [] then SelectBase else FilterSql(conds[..|conds| - 1]) + Clause(conds[|conds| - 1].0)
  }

  /** The text begins with the unfiltered select. */
  predicate ExtendsSelect(sql: string) {
    |sql| >= |SelectBase| && sql[..|SelectBase|] == SelectBase
  }

  /** The values of a list of conditions, in order. */
  function FilterParams(conds: seq<(string, JsValue)>): (params: seq<JsValue>)
    ensures |params| == |conds|
    ensures forall i :: 0 <= i < |conds| ==> params[i] == conds[i].1
  {
    seq(|conds|, i requires 0 <= i < |conds| => conds[i].1)
  }

  /** `" AND <column> = @p<k>"`: a clause with its marker named. */
  function NamedClause(column: string, k: nat): string {
    " AND " + column + " = " + ParamRef(k)
  }

  /** The filter's SQL with its markers named: the j-th condition's clause
      compares its column with `@p<j>`. */
  function NamedFilterSql(conds: seq<(string, JsValue)>): string {
    if conds == [] then SelectBase
    else NamedFilterSql(conds[..|conds| - 1]) + NamedClause(conds[|conds| - 1].0, |conds| - 1)
  }

  /** A clause holds one marker, which the binder names `@p<k>`. */
  lemma {:induction false} ClauseBinds(column: string, k: nat)
    requires Marker !in column
    ensures CountPlaceholders(Clause(column)) == 1
    ensures Rewrite(Clause(column), k) == NamedClause(column, k)
  {
    var prefix := " AND " + column + " = ";
    assert Marker !in prefix;
    RewriteWithoutMarkers(prefix, k);
    assert Clause(column) == prefix + [Marker];
    RewriteAppend(prefix, [Marker], k);
    assert Rewrite([Marker], k) == ParamRef(k) + Rewrite([], k + 1);
  }

  lemma {:induction false} FilterColumnsHaveNoMarker()
    ensures forall i :: 0 <= i < |FilterColumns| ==> Marker !in FilterColumns[i]
    ensures Marker !in SelectBase
  {
    assert Marker !in "category";
    assert Marker !in "color";
    assert Marker !in "size";
  }

  /** The built SQL holds one marker per condition, so the binder's count
      check passes for it, and the j-th marker, named `@p<j>`, sits in the
      clause of the j-th condition. */
  lemma {:induction false} FilterSqlBinds(conds: seq<(string, JsValue)>)
    requires forall i :: 0 <= i < |conds| ==> Marker !in conds[i].0
    requires Marker !in SelectBase
    ensures CountPlaceholders(FilterSql(conds)) == |conds|
    ensures Rewrite(FilterSql(conds), 0) == NamedFilterSql(conds)
  {
    if conds == [] {
      RewriteWithoutMarkers(SelectBase, 0);
    } else {
      var init := conds[..|conds| - 1];
      var column := conds[|conds| - 1].0;
      FilterSqlBinds(init);
      ClauseBinds(column, |init|);
      AppendBinds(FilterSql(init), NamedFilterSql(init), Clause(column), NamedClause(column, |init|));
    }
  }

  /** A text whose markers are all numbered before one more marked clause:
      the clause's marker takes the next number. */
  lemma {:induction false} AppendBinds(a: string, named: string, c: string, namedClause: string)
    requires Rewrite(a, 0) == named && CountPlaceholders(c) == 1
    requires Rewrite(c, CountPlaceholders(a)) == namedClause
    ensures CountPlaceholders(a + c) == CountPlaceholders(a) + 1
    ensures Rewrite(a + c, 0) == named + namedClause
  {
    RewriteAppend(a, c, 0);
  }

  /** The GET handler's prepared statement never fails the count check;
      `@p<j>` is bound to the value of the j-th truthy filter. */
  lemma {:induction false} FilterStatementBinds(query: JsValue, j: nat)
    requires j < |FilterConditions(query)|
    ensures var conds := FilterConditions(query);
      Prepare(FilterSql(conds), FilterParams(conds)) == Ok(Statement(NamedFilterSql(conds), Bindings(FilterParams(conds))))
      && Lookup(Bindings(FilterParams(conds)), ParamName(j)) == Some(conds[j].1)
  {
    var conds := FilterConditions(query);
    FilterQueryBinds(query);
    LookupBindings(FilterParams(conds), j);
  }

  /** The SQL and arguments of GET /products, built by appending one
      clause and pushing one value per truthy filter. */
  method BuildFilterQuery(query: JsValue) returns (sql: string, params: seq<JsValue>)
    ensures sql == FilterSql(FilterConditions(query))
    ensures params == FilterParams(FilterConditions(query))
    ensures CountPlaceholders(sql) == |params|
    ensures !Truthy(Get(query, "category")) && !Truthy(Get(query, "color")) && !Truthy(Get(query, "size"))
            ==> sql == SelectBase && params == []
  {
    var category, color, size := Get(query, "category"), Get(query, "color"), Get(query, "size");
    ghost var conds: seq<(string, JsValue)> := [];
    sql := SelectBase;
    params := [];
    FilterAdd(query, conds, "category");
    if Truthy(category) {
      sql := sql + Clause("category");
      params := params + [category];
    }
    conds := conds + Condition(query, "category");
    FilterAdd(query, conds, "color");
    if Truthy(color) {
      sql := sql + Clause("color");
      params := params + [color];
    }
    conds := conds + Condition(query, "color");
    FilterAdd(query, conds, "size");
    if Truthy(size) {
      sql := sql + Clause("size");
      params := params + [size];
    }
    conds := conds + Condition(query, "size");
    FilterConditionsUnfold(query);
    FilterQueryBinds(query);
  }

  /** The SQL built for a request holds one marker per truthy filter. */
  lemma {:induction false} FilterQueryBinds(query: JsValue)
    ensures CountPlaceholders(FilterSql(FilterConditions(query))) == |FilterConditions(query)|
    ensures Rewrite(FilterSql(FilterConditions(query)), 0) == NamedFilterSql(FilterConditions(query))
  {
    var conds := FilterConditions(query);
    FilterColumnsHaveNoMarker();
    forall i | 0 <= i < |conds|
      ensures Marker !in conds[i].0
    {
      assert conds[i].0 in FilterColumns;
    }
    FilterSqlBinds(conds);
  }

  /** Adding the condition for one column appends its clause and its value
      when the column's value is truthy, and nothing otherwise. */
  lemma {:induction false} FilterAdd(query: JsValue, conds: seq<(string, JsValue)>, column: string)
    ensures var v := Get(query, column);
      && FilterSql(conds + Condition(query, column)) == (if Truthy(v) then FilterSql(conds) + Clause(column) else FilterSql(conds))
      && FilterParams(conds + Condition(query, column)) == (if Truthy(v) then FilterParams(conds) + [v] else FilterParams(conds))
  {
    if Truthy(Get(query, column)) {
      FilterStep(conds, column, Get(query, column));
    } else {
      assert conds + Condition(query, column) == conds;
    }
  }

  /** Appending a condition appends its clause and its value. */
  lemma {:induction false} FilterStep(conds: seq<(string, JsValue)>, column: string, v: JsValue)
    ensures FilterSql(conds + [(column, v)]) == FilterSql(conds) + Clause(column)
    ensures FilterParams(conds + [(column, v)]) == FilterParams(conds) + [v]
  {
    assert (conds + [(column, v)])[..|conds|] == conds;
  }

  /** The three filters, one after the other. */
  lemma {:induction false} FilterConditionsUnfold(query: JsValue)
    ensures FilterConditions(query) == Condition(query, "category") + Condition(query, "color") + Condition(query, "size")
  {
    var rest := FilterColumns[1..];
    assert FilterColumns[0] == "category" && rest[0] == "color" && rest[1..][0] == "size" && rest[1..][1..] == [];
    PresentCons(query, FilterColumns);
    PresentCons(query, rest);
    PresentCons(query, rest[1..]);
  }

  /** `Present` takes its columns one at a time, from the front. */
  lemma {:induction false} PresentCons(query: JsValue, columns: seq<string>)
    requires columns != []
    ensures Present(query, columns) == Condition(query, columns[0]) + Present(query, columns[1..])
  {
  }

  /** GET /products: validate the query string (400 with the first
      message), then run the filtered select and answer its rows, or 500
      when the database call fails. */
  method GetProducts(pool: Pool<JsValue>, query: JsValue, validate: JsValue -> Option<string>)
    returns (resp: Response)
    modifies pool
    ensures validate(query).Some? ==>
      resp == Response(400, Message(validate(query).value)) && pool.sent == old(pool.sent)
    ensures validate(query).None? ==>
      var conds := FilterConditions(query);
      var stmt := Statement(NamedFilterSql(conds), Bindings(FilterParams(conds)));
      pool.sent == old(pool.sent) + [stmt]
      && resp == match pool.db(old(pool.sent), stmt)
                 case Done(res) => Response(200, Records(RecordsOf(res)))
                 case Failed(_) => Response(500, Message(UnexpectedError))
  {
    var error := validate(query);
    if error.Some? {
      return Response(400, Message(error.value));
    }
    var sql, params := BuildFilterQuery(query);
    FilterQueryBinds(query);
    var r := Query(pool, sql, params);
    if r.Err? {
      return Response(500, Message(UnexpectedError));
    }
    resp := Response(200, Records(r.value.0));
  }

  // ---------------------------------------------------------------------
  // POST /products
  // ---------------------------------------------------------------------

  /** `req.body && req.body.products ? req.body.products : req.body`, then
      a string payload parsed as JSON when it parses. */
  function Payload(body: JsValue, parse: string -> Option<JsValue>): (payload: JsValue)
    ensures body.Object? && "products" in body.props && Truthy(body.props["products"]) && !body.props["products"].Str?
            ==> payload == body.props["products"]
    ensures !(body.Object? && "products" in body.props && Truthy(body.props["products"])) && !body.Str?
            ==> payload == body
  {
    var payload := if Truthy(body) && Truthy(Get(body, "products")) then Get(body, "products") else body;
    if payload.Str? && parse(payload.s).Some? then parse(payload.s).value else payload
  }

  /** `Array.isArray(payload) ? payload : [payload]`. */
  function ProductList(payload: JsValue): (products: seq<JsValue>)
    ensures payload.Array? ==> products == payload.items
    ensures !payload.Array? ==> products == [payload]
  {
    if payload.Array? then payload.items else [payload]
  }

  /** The column list of the insert, in the order of its `?` markers. */
  const InsertColumns: seq<string> := ["name", "category", "color", "size", "image_url", "price"]

  /** The insert template, written as the text between its six markers.
      The literals are cut into short pieces, each of which the lemmas below
      show to be free of `?` one at a time; the text is unchanged. */
  const InsertHead: string :=
    "\n      INSERT INTO products " + "(name, category, color, " + "size, image_url, price)" + "\n      VALUES ("
  const InsertTail: string :=
    ");\n      SELECT CAST(" + "SCOPE_IDENTITY() AS INT)" + " AS insertId;\n    "
  const InsertSegments: seq<string> := [InsertHead, ", ", ", ", ", ", ", ", ", ", InsertTail]
  const InsertSql: string := Join(InsertSegments, Marker)

  /** The insert template holds exactly six markers; rewritten, its value
      list reads `@p0, @p1, @p2, @p3, @p4, @p5`. */
  lemma {:induction false} InsertTemplate()
    ensures CountPlaceholders(InsertSql) == 6
    ensures Rewrite(InsertSql, 0) == Interleave(InsertSegments, 0)
  {
    InsertSegmentsHaveNoMarker();
    RewriteJoin(InsertSegments, 0);
  }

  lemma {:induction false} InsertSegmentsHaveNoMarker()
    ensures forall i :: 0 <= i < |InsertSegments| ==> Marker !in InsertSegments[i]
  {
    InsertHeadHasNoMarker();
    InsertTailHasNoMarker();
    assert Marker !in ", ";
  }

  lemma {:induction false} InsertHeadHasNoMarker()
    ensures Marker !in InsertHead
  {
    InsertColumnsHaveNoMarker();
    InsertValuesHaveNoMarker();
  }

  lemma {:induction false} InsertColumnsHaveNoMarker()
    ensures Marker !in "\n      INSERT INTO products " + "(name, category, color, "
  {
    assert Marker !in "\n      INSERT INTO products ";
    assert Marker !in "(name, category, color, ";
  }

  lemma {:induction false} InsertValuesHaveNoMarker()
    ensures Marker !in "size, image_url, price)" + "\n      VALUES ("
  {
    assert Marker !in "size, image_url, price)";
    assert Marker !in "\n      VALUES (";
  }

  lemma {:induction false} InsertTailHasNoMarker()
    ensures Marker !in InsertTail
  {
    assert Marker !in ");\n      SELECT CAST(";
    assert Marker !in "SCOPE_IDENTITY() AS INT)";
    assert Marker !in " AS insertId;\n    ";
  }

  /** The six insert arguments of a product: its properties in column
      order; reading a property of null or undefined throws instead. */
  function ProductParams(product: JsValue): (args: Option<seq<JsValue>>)
    ensures args.None? <==> product.Null? || product.Undefined?
    ensures args.Some? ==> |args.value| == |InsertColumns|
    ensures args.Some? ==> forall i :: 0 <= i < |InsertColumns| ==> args.value[i] == Get(product, InsertColumns[i])
  {
    if product.Null? || product.Undefined? then None
    else Some(seq(|InsertColumns|, i requires 0 <= i < |InsertColumns| => Get(product, InsertColumns[i])))
  }

  /** `rows[0]?.insertId || null`. */
  function InsertedId(rows: seq<Row<JsValue>>): (id: JsValue)
    ensures id == Null || Truthy(id)
    ensures id != Null ==> |rows| > 0 && "insertId" in rows[0] && rows[0]["insertId"] == id
    ensures |rows| > 0 && "insertId" in rows[0] && Truthy(rows[0]["insertId"]) ==> id == rows[0]["insertId"]
  {
    if |rows| > 0 && "insertId" in rows[0] && Truthy(rows[0]["insertId"]) then rows[0]["insertId"] else Null
  }

  /** `result.rowsAffected?.[0] || 0`. */
  function RowsAffected(res: QueryResult<JsValue>): (n: int)
    ensures n == 0 || (res.rowsAffected.Some? && |res.rowsAffected.value| > 0 && n == res.rowsAffected.value[0])
    ensures res.rowsAffected.Some? && |res.rowsAffected.value| > 0 ==> n == res.rowsAffected.value[0]
  {
    if res.rowsAffected.Some? && |res.rowsAffected.value| > 0 then res.rowsAffected.value[0] else 0
  }

  /** What the insert loop has gathered. */
  datatype Inserted = Inserted(ids: seq<JsValue>, affectedRows: int)

  /** Why the insert loop stopped early. */
  datatype InsertError = PropertyOfNull | QueryFailed(error: QueryError)

  /** The insert loop from some point on: the statements sent so far and
      the outcome, given what was gathered before. One insert per product,
      in order; the first failure ends the loop. The binder's count check
      always passes for the insert (`InsertBinds`), so its statement is
      written here directly. */
  function InsertRun(db: Database<JsValue>, sent: seq<Statement<JsValue>>, products: seq<JsValue>, acc: Inserted)
    : (run: (seq<Statement<JsValue>>, Result<Inserted, InsertError>))
    ensures |sent| <= |run.0| <= |sent| + |products| && run.0[..|sent|] == sent
    ensures run.1.Ok? ==> |run.1.value.ids| == |acc.ids| + |products| && run.1.value.ids[..|acc.ids|] == acc.ids
    decreases |products|
  {
    if products == [] then (sent, Ok(acc))
    else match ProductParams(products[0])
      case None => (sent, Err(PropertyOfNull))
      case Some(args) =>
        var stmt := InsertStatement(args);
        match Completed(db(sent, stmt))
        case Err(e) => (sent + [stmt], Err(QueryFailed(e)))
        case Ok(answer) =>
          InsertRun(db, sent + [stmt], products[1..],
                    Inserted(acc.ids + [InsertedId(answer.0)], acc.affectedRows + RowsAffected(answer.1)))
  }

  /** The insert template as sent: its markers named `@p0` to `@p5`. */
  const InsertText: string := Interleave(InsertSegments, 0)

  /** The statement sent for a product's arguments. */
  function InsertStatement(args: seq<JsValue>): Statement<JsValue> {
    Statement(InsertText, Bindings(args))
  }

  /** The count check never fails for an insert: every product's six
      arguments fill the six markers, `@p<i>` holding the value of the
      i-th column. */
  lemma {:induction false} InsertBinds(product: JsValue, i: nat)
    requires ProductParams(product).Some? && i < |InsertColumns|
    ensures Prepare(InsertSql, ProductParams(product).value) == Ok(InsertStatement(ProductParams(product).value))
    ensures Lookup(InsertStatement(ProductParams(product).value).bindings, ParamName(i)) == Some(Get(product, InsertColumns[i]))
  {
    InsertTemplate();
    LookupBindings(ProductParams(product).value, i);
  }

  /** The answers the database gave to the statements of a log from the
      lo-th on, each given the statements sent before it. */
  function Answers(db: Database<JsValue>, log: seq<Statement<JsValue>>, lo: nat): (answers: seq<Outcome<JsValue>>)
    requires lo <= |log|
    ensures |answers| == |log| - lo
    decreases |log| - lo
  {
    if lo == |log| then [] else [db(log[..lo], log[lo])] + Answers(db, log, lo + 1)
  }

  /** The id each answer yields. */
  function Ids(answers: seq<Outcome<JsValue>>): (ids: seq<JsValue>)
    ensures |ids| == |answers|
  {
    if answers == [] then []
    else [if answers[0].Done? then InsertedId(RecordsOf(answers[0].result)) else Null] + Ids(answers[1..])
  }

  /** The row counts of the answers, summed. */
  function TotalRows(answers: seq<Outcome<JsValue>>): int {
    if answers == [] then 0
    else (if answers[0].Done? then RowsAffected(answers[0].result) else 0) + TotalRows(answers[1..])
  }

  /** One turn of the loop on a product whose insert succeeds. */
  lemma {:induction false} InsertRunStep(db: Database<JsValue>, sent: seq<Statement<JsValue>>, products: seq<JsValue>, acc: Inserted)
    requires products != [] && ProductParams(products[0]).Some?
    requires db(sent, InsertStatement(ProductParams(products[0]).value)).Done?
    ensures var stmt := InsertStatement(ProductParams(products[0]).value);
      var res := db(sent, stmt).result;
      InsertRun(db, sent, products, acc)
      == InsertRun(db, sent + [stmt], products[1..],
                   Inserted(acc.ids + [InsertedId(RecordsOf(res))], acc.affectedRows + RowsAffected(res)))
  {
  }

  /** A successful run began with a product whose insert was answered. */
  lemma {:induction false} InsertRunHead(db: Database<JsValue>, sent: seq<Statement<JsValue>>, products: seq<JsValue>, acc: Inserted)
    requires products != [] && InsertRun(db, sent, products, acc).1.Ok?
    ensures ProductParams(products[0]).Some?
    ensures db(sent, InsertStatement(ProductParams(products[0]).value)).Done?
  {
  }

  /** What a log extending `sent + [stmt]` holds at and before `|sent|`. */
  lemma {:induction false} LogAfter(log: seq<Statement<JsValue>>, sent: seq<Statement<JsValue>>, stmt: Statement<JsValue>)
    requires |sent| + 1 <= |log| && log[..|sent| + 1] == sent + [stmt]
    ensures log[..|sent|] == sent && log[|sent|] == stmt
  {
    assert log[..|sent|] == log[..|sent| + 1][..|sent|];
    assert log[|sent|] == log[..|sent| + 1][|sent|];
  }

  /** Whatever its outcome, the loop only appends: one insert statement
      per product it reached, in product order. */
  lemma {:induction false} InsertRunLog(db: Database<JsValue>, sent: seq<Statement<JsValue>>, products: seq<JsValue>, acc: Inserted)
    ensures var log := InsertRun(db, sent, products, acc).0;
      |sent| <= |log| <= |sent| + |products| && log[..|sent|] == sent
      && forall i :: 0 <= i < |log| - |sent| ==>
           ProductParams(products[i]).Some? && log[|sent| + i] == InsertStatement(ProductParams(products[i]).value)
    decreases |products|
  {
    if products != [] && ProductParams(products[0]).Some? {
      var stmt := InsertStatement(ProductParams(products[0]).value);
      if db(sent, stmt).Done? {
        var res := db(sent, stmt).result;
        var sent' := sent + [stmt];
        var acc' := Inserted(acc.ids + [InsertedId(RecordsOf(res))], acc.affectedRows + RowsAffected(res));
        InsertRunStep(db, sent, products, acc);
        InsertRunLog(db, sent', products[1..], acc');
        var log := InsertRun(db, sent', products[1..], acc').0;
        LogAfter(log, sent, stmt);
        forall i | 0 <= i < |log| - |sent|
          ensures ProductParams(products[i]).Some? && log[|sent| + i] == InsertStatement(ProductParams(products[i]).value)
        {
          if i > 0 {
            assert products[i] == products[1..][i - 1];
            assert |sent| + i == |sent'| + (i - 1);
          }
        }
      }
    }
  }

  /** Every answer in the list is a success. */
  predicate AllDone(answers: seq<Outcome<JsValue>>) {
    forall k :: 0 <= k < |answers| ==> answers[k].Done?
  }

  /** When the loop completes, it has sent exactly one insert per product,
      each answered without failure, and gathered one id per product, in
      product order, each the id of that insert's answer; the row count is
      the sum of the answers' row counts. */
  lemma {:induction false} InsertRunComplete(db: Database<JsValue>, sent: seq<Statement<JsValue>>, products: seq<JsValue>, acc: Inserted)
    requires InsertRun(db, sent, products, acc).1.Ok?
    ensures var (log, r) := InsertRun(db, sent, products, acc);
      |log| == |sent| + |products| && log[..|sent|] == sent
      && AllDone(Answers(db, log, |sent|))
      && r.value.ids == acc.ids + Ids(Answers(db, log, |sent|))
      && r.value.affectedRows == acc.affectedRows + TotalRows(Answers(db, log, |sent|))
    decreases |products|
  {
    if products != [] {
      InsertRunHead(db, sent, products, acc);
      var stmt := InsertStatement(ProductParams(products[0]).value);
      var res := db(sent, stmt).result;
      var sent' := sent + [stmt];
      var acc' := Inserted(acc.ids + [InsertedId(RecordsOf(res))], acc.affectedRows + RowsAffected(res));
      InsertRunStep(db, sent, products, acc);
      InsertRunComplete(db, sent', products[1..], acc');
      var log := InsertRun(db, sent', products[1..], acc').0;
      LogAfter(log, sent, stmt);
      AnswersAfter(db, log, |sent|);
    }
  }

  /** The answers from `lo` on all succeed exactly when the lo-th does and
      all those after it do. */
  lemma {:induction false} AllDoneCons(db: Database<JsValue>, log: seq<Statement<JsValue>>, lo: nat)
    requires lo < |log|
    ensures AllDone(Answers(db, log, lo)) <==> db(log[..lo], log[lo]).Done? && AllDone(Answers(db, log, lo + 1))
  {
    var answers := Answers(db, log, lo);
    assert answers[0] == db(log[..lo], log[lo]);
    assert answers[1..] == Answers(db, log, lo + 1);
    if db(log[..lo], log[lo]).Done? && AllDone(Answers(db, log, lo + 1)) {
      forall k | 0 <= k < |answers|
        ensures answers[k].Done?
      {
        if k > 0 {
          assert answers[k] == answers[1..][k - 1];
        }
      }
    }
  }

  /** The converse of `InsertRunComplete`: the loop ends without error
      exactly when it sent one insert per product and every insert was
      answered without failure. */
  lemma {:induction false} InsertRunOk(db: Database<JsValue>, sent: seq<Statement<JsValue>>, products: seq<JsValue>, acc: Inserted)
    ensures var log := InsertRun(db, sent, products, acc).0;
      InsertRun(db, sent, products, acc).1.Ok? <==> (|log| == |sent| + |products| && AllDone(Answers(db, log, |sent|)))
    decreases |products|
  {
    var (log, r) := InsertRun(db, sent, products, acc);
    if r.Ok? {
      InsertRunComplete(db, sent, products, acc);
    } else if products != [] && ProductParams(products[0]).Some? {
      var stmt := InsertStatement(ProductParams(products[0]).value);
      var sent' := sent + [stmt];
      if db(sent, stmt).Done? {
        var res := db(sent, stmt).result;
        var acc' := Inserted(acc.ids + [InsertedId(RecordsOf(res))], acc.affectedRows + RowsAffected(res));
        InsertRunStep(db, sent, products, acc);
        InsertRunOk(db, sent', products[1..], acc');
        LogAfter(log, sent, stmt);
        if |log| == |sent| + |products| {
          AllDoneCons(db, log, |sent|);
        }
      } else if |log| == |sent| + |products| {
        assert log == sent';
        assert log[..|sent|] == sent;
        assert Answers(db, log, |sent|)[0] == db(sent, stmt);
      }
    }
  }

  /** How the loop stops at a null or undefined product: every earlier
      insert succeeded, the offending product is the next one, and nothing
      more is sent. The statements already sent stay sent: nothing is
      undone. */
  lemma {:induction false} InsertRunStopsAtNull(db: Database<JsValue>, sent: seq<Statement<JsValue>>, products: seq<JsValue>, acc: Inserted)
    requires InsertRun(db, sent, products, acc).1 == Err(PropertyOfNull)
    ensures var log := InsertRun(db, sent, products, acc).0;
      |log| < |sent| + |products| && ProductParams(products[|log| - |sent|]).None?
      && AllDone(Answers(db, log, |sent|))
    decreases |products|
  {
    var log := InsertRun(db, sent, products, acc).0;
    if ProductParams(products[0]).Some? {
      var stmt := InsertStatement(ProductParams(products[0]).value);
      var sent' := sent + [stmt];
      var res := db(sent, stmt).result;
      var acc' := Inserted(acc.ids + [InsertedId(RecordsOf(res))], acc.affectedRows + RowsAffected(res));
      InsertRunStep(db, sent, products, acc);
      InsertRunStopsAtNull(db, sent', products[1..], acc');
      LogAfter(log, sent, stmt);
      AllDoneCons(db, log, |sent|);
      assert products[|log| - |sent|] == products[1..][|log| - |sent'|];
    }
  }

  /** How the loop stops at a failed insert: that insert is the last
      statement sent, every earlier one succeeded, and its error is the
      loop's. The statements already sent stay sent: nothing is undone. */
  lemma {:induction false} InsertRunStopsAtFailure(db: Database<JsValue>, sent: seq<Statement<JsValue>>, products: seq<JsValue>, acc: Inserted)
    requires InsertRun(db, sent, products, acc).1.Err? && InsertRun(db, sent, products, acc).1.error.QueryFailed?
    ensures var (log, r) := InsertRun(db, sent, products, acc);
      var answers := Answers(db, log, |sent|);
      |answers| > 0 && AllDone(answers[..|answers| - 1])
      && Completed(answers[|answers| - 1]) == Err(r.error.error)
    decreases |products|
  {
    var log := InsertRun(db, sent, products, acc).0;
    var stmt := InsertStatement(ProductParams(products[0]).value);
    if db(sent, stmt).Done? {
      var sent' := sent + [stmt];
      var res := db(sent, stmt).result;
      var acc' := Inserted(acc.ids + [InsertedId(RecordsOf(res))], acc.affectedRows + RowsAffected(res));
      InsertRunStep(db, sent, products, acc);
      InsertRunStopsAtFailure(db, sent', products[1..], acc');
      LogAfter(log, sent, stmt);
      DoneBeforeLast(Answers(db, log, |sent|), Answers(db, log, |sent'|));
    } else {
      assert log[..|sent|] == sent;
      assert Answers(db, log, |sent|)[0] == db(sent, stmt);
    }
  }

  /** A successful answer followed by answers that succeed up to their last
      one succeed up to their last one. */
  lemma {:induction false} DoneBeforeLast(answers: seq<Outcome<JsValue>>, rest: seq<Outcome<JsValue>>)
    requires |rest| > 0 && |answers| == |rest| + 1 && answers[1..] == rest
    requires answers[0].Done? && AllDone(rest[..|rest| - 1])
    ensures AllDone(answers[..|answers| - 1]) && answers[|answers| - 1] == rest[|rest| - 1]
  {
    forall k | 0 <= k < |answers| - 1
      ensures answers[k].Done?
    {
      if k > 0 {
        assert answers[k] == rest[..|rest| - 1][k - 1];
      }
    }
  }

  /** The answers from `lo` on are the answer to the lo-th statement
      followed by the answers after it. */
  lemma {:induction false} AnswersAfter(db: Database<JsValue>, log: seq<Statement<JsValue>>, lo: nat)
    requires lo < |log| && AllDone(Answers(db, log, lo + 1)) && db(log[..lo], log[lo]).Done?
    ensures AllDone(Answers(db, log, lo))
    ensures Ids(Answers(db, log, lo)) == [InsertedId(RecordsOf(db(log[..lo], log[lo]).result))] + Ids(Answers(db, log, lo + 1))
    ensures TotalRows(Answers(db, log, lo)) == RowsAffected(db(log[..lo], log[lo]).result) + TotalRows(Answers(db, log, lo + 1))
  {
    var answers := Answers(db, log, lo);
    assert answers[1..] == Answers(db, log, lo + 1);
    forall k | 0 <= k < |answers|
      ensures answers[k].Done?
    {
      if k > 0 {
        assert answers[k] == answers[1..][k - 1];
      }
    }
  }

  /** The `for (const product of products)` loop of POST /products: one
      `query` per product, gathering the inserted ids and the row counts. */
  method InsertProducts(pool: Pool<JsValue>, products: seq<JsValue>) returns (r: Result<Inserted, InsertError>)
    modifies pool
    ensures (pool.sent, r) == InsertRun(pool.db, old(pool.sent), products, Inserted([], 0))
  {
    var insertedIds: seq<JsValue> := [];
    var affectedRows := 0;
    for i := 0 to |products|
      invariant InsertRun(pool.db, old(pool.sent), products, Inserted([], 0))
                == InsertRun(pool.db, pool.sent, products[i..], Inserted(insertedIds, affectedRows))
    {
      assert products[i..][1..] == products[i + 1..];
      var args := ProductParams(products[i]);
      if args.None? {
        return Err(PropertyOfNull);
      }
      InsertBinds(products[i], 0);
      var q := Query(pool, InsertSql, args.value);
      if q.Err? {
        return Err(QueryFailed(q.error));
      }
      var (rows, result) := q.value;
      insertedIds := insertedIds + [InsertedId(rows)];
      affectedRows := affectedRows + RowsAffected(result);
    }
    assert products[|products|..] == [];
    r := Ok(Inserted(insertedIds, affectedRows));
  }

  /** The answer of POST /products once the loop has run: `productId` for
      a single product, `productIds` and `totalInserted` otherwise, and 500
      when the loop stopped on an error. */
  function InsertResponse(count: nat, run: Result<Inserted, InsertError>): (resp: Response)
    ensures run.Err? <==> resp.status == 500
    ensures run.Err? ==> resp.body == Message(UnexpectedError)
    ensures run.Ok? ==> resp.status == 200
    ensures run.Ok? && count == 1 ==>
      resp.body.ProductAdded? && resp.body.message == ProductAddedMessage
      && resp.body.affectedRows == run.value.affectedRows
      && (run.value.ids != [] ==> resp.body.productId == run.value.ids[0])
    ensures run.Ok? && count != 1 ==>
      resp.body.ProductsAdded? && resp.body.message == ProductsAddedMessage
      && resp.body.productIds == run.value.ids
      && resp.body.totalInserted == run.value.affectedRows
  {
    if run.Err? then Response(500, Message(UnexpectedError))
    else if count == 1 then
      Response(200, ProductAdded(ProductAddedMessage,
                                 if run.value.ids != [] then run.value.ids[0] else Undefined,
                                 run.value.affectedRows))
    else Response(200, ProductsAdded(ProductsAddedMessage, run.value.ids, run.value.affectedRows))
  }

  /** POST /products: pick and validate the payload (400 with the first
      message, nothing sent), insert every product in order, and answer
      with what the inserts returned. */
  method PostProducts(pool: Pool<JsValue>, body: JsValue, parse: string -> Option<JsValue>,
                      validate: JsValue -> Option<string>)
    returns (resp: Response)
    modifies pool
    ensures validate(Payload(body, parse)).Some? ==>
      resp == Response(400, Message(validate(Payload(body, parse)).value)) && pool.sent == old(pool.sent)
    ensures validate(Payload(body, parse)).None? ==>
      var products := ProductList(Payload(body, parse));
      var run := InsertRun(pool.db, old(pool.sent), products, Inserted([], 0));
      pool.sent == run.0 && resp == InsertResponse(|products|, run.1)
  {
    var payload := Payload(body, parse);
    var error := validate(payload);
    if error.Some? {
      return Response(400, Message(error.value));
    }
    var products := ProductList(payload);
    var run := InsertProducts(pool, products);
    resp := InsertResponse(|products|, run);
  }

  /** A single valid product that is inserted yields the id of its insert's
      answer as `productId`. */
  lemma {:induction false} SingleProductResponse(db: Database<JsValue>, sent: seq<Statement<JsValue>>, product: JsValue)
    requires InsertRun(db, sent, [product], Inserted([], 0)).1.Ok?
    ensures var (log, r) := InsertRun(db, sent, [product], Inserted([], 0));
      |log| == |sent| + 1 && db(sent, log[|sent|]).Done?
      && InsertResponse(1, r).body == ProductAdded(ProductAddedMessage,
           InsertedId(RecordsOf(db(sent, log[|sent|]).result)), RowsAffected(db(sent, log[|sent|]).result))
  {
    InsertRunComplete(db, sent, [product], Inserted([], 0));
    var (log, r) := InsertRun(db, sent, [product], Inserted([], 0));
    var answers := Answers(db, log, |sent|);
    assert answers == [db(sent, log[|sent|])];
    assert answers[0].Done?;
    assert answers[1..] == [];
  }
}
