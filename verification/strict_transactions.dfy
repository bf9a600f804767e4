/**
 * The `/api/transactions` router of the second backend: POST and PUT first
 * check that the type is "支出" or "収入" (throwing outside the `try` block
 * otherwise), then look the category up by its exact name and answer 400
 * when there is none, never creating one; GET by id answers the record or a
 * 404 text naming the id. Failures inside the `try` blocks answer 500.
 */
module StrictTransactions {
  import opened JsValues
  import opened ParseInt
  import opened Storage
  import opened Http

  const Expense := "支出"
  const Income := "収入"
  const BadType := "Parameter is not assigned values!"
  const ServerError := "サーバーエラーが発生しました"
  const CategoryNotFound := "カテゴリーが見つかりません: "
  const TransactionNotFound := "該当する取引が見つかりませんでした id: "

  /** The fields POST and PUT read from the JSON body. */
  datatype Body = Body(amount: JsValue, kind: JsValue, date: JsValue, category: JsValue, description: JsValue)

  predicate KnownType(v: JsValue) {
    v == Str(Expense) || v == Str(Income)
  }

  /** No category is named by the body's string. */
  predicate UnknownCategory(cats: seq<Category>, v: JsValue) {
    v.Str? && !HasCategoryNamed(cats, v.s)
  }

  /**
   * The lookup finds a row: a string names an existing category, and a
   * missing value, whose filter is dropped, matches any first row.
   */
  predicate CategoryFound(cats: seq<Category>, v: JsValue) {
    (v.Str? && HasCategoryNamed(cats, v.s)) || (v.Undefined? && |cats| > 0)
  }

  /** POST `/`. */
  function Post(s: Store, b: Body): (h: Handled)
    // the type check runs first and throws, leaving the store alone
    ensures h.response.Rejected? <==> !KnownType(b.kind)
    ensures !KnownType(b.kind) ==> h == Handled(Rejected(BadType), s)
    // no category is ever created
    ensures h.store.categories == s.categories
    ensures KnownType(b.kind) && UnknownCategory(s.categories, b.category) ==>
      h == Handled(Reply(400, ErrorJson(CategoryNotFound + b.category.s)), s)
    ensures !HasStatus(h, 201) ==> h.store == s
    // it succeeds exactly when the type is known, the category is found and
    // the amount and description have column types
    ensures HasStatus(h, 201) <==>
      KnownType(b.kind) && CategoryFound(s.categories, b.category) && b.amount.Num? && !b.description.Num?
    // a created transaction is the only new one, filed under the first category of that name
    ensures HasStatus(h, 201) ==>
      && h.response.payload.Record?
      && var t := h.response.payload.t;
      && h.store.transactions == s.transactions + [t]
      && b.amount == Num(t.amount)
      && b.kind == Str(t.kind)
      && b.date == t.date
      && t.description == (if b.description.Str? then Some(b.description.s) else None)
      && (b.category.Str? ==> FiledUnderFirst(s.categories, b.category.s, t.categoryId))
  {
    if !KnownType(b.kind) then Handled(Rejected(BadType), s)
    else
      match FindCategoryByName(s.categories, b.category)
      case Err(_) => Handled(Reply(500, Text(ServerError)), s)
      case Ok(None) => Handled(Reply(400, ErrorJson(CategoryNotFound + ToJsString(b.category))), s)
      case Ok(Some(i)) =>
        assert HasCategory(s.categories, s.categories[i].id);
        match CreateTransaction(s, b.amount, b.date, b.kind, s.categories[i].id, b.description)
        case Err(_) => Handled(Reply(500, Text(ServerError)), s)
        case Ok((t, s')) => Handled(Reply(201, Record(t)), s')
  }

  /** GET `/:id`: no `try` block, so a failing lookup throws. */
  function Get(s: Store, rawId: string): (h: Handled)
    ensures h.store == s
    ensures h.response.Rejected? <==> ParseDecimal(rawId).NaN?
    ensures HasStatus(h, 200) <==> ParseDecimal(rawId).Int? && HasTransaction(s.transactions, ParseDecimal(rawId).value)
    ensures ParseDecimal(rawId).Int? && !HasTransaction(s.transactions, ParseDecimal(rawId).value) ==>
      h.response == Reply(404, Text(TransactionNotFound + rawId))
    ensures HasStatus(h, 200) ==>
      && h.response.payload.Record?
      && h.response.payload.t in s.transactions
      && Int(h.response.payload.t.id) == ParseDecimal(rawId)
    ensures h.response.Reply? ==> h.response.status in {200, 404}
  {
    match FindTransaction(s.transactions, ParseDecimal(rawId))
    case Err(e) => Handled(Rejected(e), s)
    case Ok(None) => Handled(Reply(404, Text(TransactionNotFound + rawId)), s)
    case Ok(Some(i)) => Handled(Reply(200, Record(s.transactions[i])), s)
  }

  /** PUT `/:id`. */
  function Put(s: Store, rawId: string, b: Body): (h: Handled)
    ensures h.response.Rejected? <==> !KnownType(b.kind)
    ensures !KnownType(b.kind) ==> h == Handled(Rejected(BadType), s)
    ensures h.store.categories == s.categories
    ensures KnownType(b.kind) && UnknownCategory(s.categories, b.category) ==>
      h == Handled(Reply(400, ErrorJson(CategoryNotFound + b.category.s)), s)
    ensures !HasStatus(h, 200) ==> h.store == s
    // it succeeds exactly when the type is known, the category is found, a
    // record has the id and the amount and description have column types
    ensures HasStatus(h, 200) <==>
      && KnownType(b.kind) && CategoryFound(s.categories, b.category)
      && ParseDecimal(rawId).Int? && HasTransaction(s.transactions, ParseDecimal(rawId).value)
      && !b.amount.Str? && !b.description.Num?
    // on success exactly the record with the path id is replaced, with the request's values
    ensures HasStatus(h, 200) ==>
      && h.response.payload.Record?
      && var t := h.response.payload.t;
      && ParseDecimal(rawId) == Int(t.id)
      && b.kind == Str(t.kind)
      && b.date == t.date
      && (b.amount.Num? ==> t.amount == b.amount.n)
      && (b.description.Str? ==> t.description == Some(b.description.s))
      && (b.category.Str? ==> FiledUnderFirst(s.categories, b.category.s, t.categoryId))
      && ReplacedAt(s.transactions, h.store.transactions, t)
  {
    if !KnownType(b.kind) then Handled(Rejected(BadType), s)
    else
      match FindCategoryByName(s.categories, b.category)
      case Err(_) => Handled(Reply(500, Text(ServerError)), s)
      case Ok(None) => Handled(Reply(400, ErrorJson(CategoryNotFound + ToJsString(b.category))), s)
      case Ok(Some(c)) =>
        assert HasCategory(s.categories, s.categories[c].id);
        match UpdateTransaction(s, ParseDecimal(rawId), b.amount, b.date, b.kind, Int(s.categories[c].id), b.description)
        case Err(_) => Handled(Reply(500, Text(ServerError)), s)
        case Ok((t, s')) =>
          var i := FirstWithId(s.transactions, ParseDecimal(rawId).value).value;
          assert s.transactions[i].id == t.id && s'.transactions == s.transactions[i := t];
          Handled(Reply(200, Record(t)), s')
  }

  /**
   * The type check answers before storage is reached: a request with any
   * other type gets the same outcome whatever the store holds.
   */
  lemma TypeCheckPrecedesStorage(s1: Store, s2: Store, rawId: string, b: Body)
    requires !KnownType(b.kind)
    ensures Post(s1, b).response == Post(s2, b).response
    ensures Put(s1, rawId, b).response == Put(s2, rawId, b).response
  {
  }

  lemma PostKeepsValid(s: Store, b: Body)
    requires Valid(s)
    ensures Valid(Post(s, b).store)
  {
    if KnownType(b.kind) {
      match FindCategoryByName(s.categories, b.category)
      case Ok(Some(i)) =>
        if CreateTransaction(s, b.amount, b.date, b.kind, s.categories[i].id, b.description).Ok? {
          CreateKeepsValid(s, b.amount, b.date, b.kind, s.categories[i].id, b.description);
        }
      case _ =>
    }
  }

  lemma PutKeepsValid(s: Store, rawId: string, b: Body)
    requires Valid(s)
    ensures Valid(Put(s, rawId, b).store)
  {
    if KnownType(b.kind) {
      match FindCategoryByName(s.categories, b.category)
      case Ok(Some(c)) =>
        var id := Int(s.categories[c].id);
        if UpdateTransaction(s, ParseDecimal(rawId), b.amount, b.date, b.kind, id, b.description).Ok? {
          UpdateKeepsValid(s, ParseDecimal(rawId), b.amount, b.date, b.kind, id, b.description);
        }
      case _ =>
    }
  }

  /**
   * In a well-formed store, a request with a known type, a numeric amount
   * and the name of an existing category is created and answers 201.
   */
  lemma PostKnownCategoryCreates(s: Store, amount: int, kind: string, date: JsValue, name: string)
    requires Valid(s)
    requires kind == Expense || kind == Income
    requires HasCategoryNamed(s.categories, name)
    ensures var h := Post(s, Body(Num(amount), Str(kind), date, Str(name), Undefined));
      && HasStatus(h, 201)
      && h.response.payload.t.amount == amount
  {
    var i := FirstNamed(s.categories, name).value;
    assert HasCategory(s.categories, s.categories[i].id);
  }

  /**
   * In a well-formed store, a PUT with a known type, a numeric amount, the
   * name of an existing category and the id of a stored record answers 200.
   */
  lemma PutKnownCategoryUpdates(s: Store, id: int, amount: int, kind: string, date: JsValue, name: string)
    requires Valid(s)
    requires kind == Expense || kind == Income
    requires HasCategoryNamed(s.categories, name)
    requires HasTransaction(s.transactions, id)
    ensures var h := Put(s, IntToDecimal(id), Body(Num(amount), Str(kind), date, Str(name), Undefined));
      && HasStatus(h, 200)
      && h.response.payload.t.id == id
      && h.response.payload.t.amount == amount
  {
    ParseDecimalOfIntText(id);
  }

  /**
   * A record POST creates is what a GET of its id then answers: the new id
   * is fresh in a well-formed store, so the lookup finds the new row.
   */
  lemma PostThenGetFinds(s: Store, b: Body)
    requires Valid(s)
    requires HasStatus(Post(s, b), 201)
    ensures var h := Post(s, b);
      Get(h.store, IntToDecimal(h.response.payload.t.id)).response == Reply(200, Record(h.response.payload.t))
  {
    var h := Post(s, b);
    var t := h.response.payload.t;
    assert t.id == s.nextTransactionId;
    assert !HasTransaction(s.transactions, t.id);
    FirstWithIdOfAppended(s.transactions, t);
    ParseDecimalOfIntText(t.id);
  }

  /**
   * A body without a category is not rejected: the lookup drops the
   * `undefined` filter, so the transaction is filed under the first category.
   */
  lemma MissingCategoryTakesFirst(s: Store, amount: int, kind: string, date: JsValue)
    requires Valid(s) && |s.categories| > 0
    requires kind == Expense || kind == Income
    ensures var h := Post(s, Body(Num(amount), Str(kind), date, Undefined, Undefined));
      && HasStatus(h, 201)
      && h.response.payload.t.categoryId == s.categories[0].id
  {
    assert HasCategory(s.categories, s.categories[0].id);
  }
}
