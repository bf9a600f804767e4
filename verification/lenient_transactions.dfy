/**
 * The `/transactions` router of the first backend: POST checks that the
 * required fields are truthy, parses the amount with `parseInt(amount, 10)`
 * and resolves the category name through `getOrCreateCategoryId`; PUT parses
 * the amount and the category id and updates in place; GET by id answers the
 * record or 404; DELETE removes it. Every failure inside the handlers' `try`
 * blocks answers 500 with the handler's fixed message.
 */
module LenientTransactions {
  import opened JsValues
  import opened ParseInt
  import opened Storage
  import opened Http
  import opened CategoryUtils

  const MissingFields := "必須フィールドが不足しています"
  const CreateFailed := "収支の作成に失敗しました"
  const NotFound := "該当する取引が見つかりません"
  const DetailFailed := "取引の詳細取得に失敗しました"
  const UpdateFailed := "収支の更新に失敗しました"
  const DeleteFailed := "収支の削除に失敗しました"

  /** The fields POST reads from the JSON body. */
  datatype PostBody = PostBody(amount: JsValue, date: JsValue, kind: JsValue, category: JsValue, description: JsValue)

  /** The fields PUT reads from the JSON body: a category id, not a name. */
  datatype PutBody = PutBody(amount: JsValue, date: JsValue, kind: JsValue, categoryId: JsValue, description: JsValue)

  predicate HasRequiredFields(b: PostBody) {
    Truthy(b.amount) && Truthy(b.date) && Truthy(b.kind) && Truthy(b.category)
  }

  /** POST `/`. */
  function Post(s: Store, b: PostBody): (h: Handled)
    // a falsy required field, and only that, answers 400 without touching the store
    ensures HasStatus(h, 400) <==> !HasRequiredFields(b)
    ensures !HasRequiredFields(b) ==> h == Handled(Reply(400, ErrorJson(MissingFields)), s)
    // the amount is parsed before any category is looked up or created
    ensures HasRequiredFields(b) && ParseIntValue(b.amount).NaN? ==>
      h == Handled(Reply(500, ErrorJson(CreateFailed)), s)
    ensures h.response.Reply? && h.response.status in {201, 400, 500}
    ensures h.response.status == 500 ==> h.response.payload == ErrorJson(CreateFailed)
    // a created transaction is the only new one, with the parsed amount and a category of that name
    ensures HasStatus(h, 201) ==>
      && h.response.payload.Record?
      && var t := h.response.payload.t;
      && h.store.transactions == s.transactions + [t]
      && ParseIntValue(b.amount) == Int(t.amount)
      && b.kind == Str(t.kind)
      && b.date == t.date
      && b.category.Str?
      && NamedCategory(h.store.categories, t.categoryId, b.category.s)
      && Ok(t.categoryId) == GetOrCreateCategoryId(s, b.category.s).0
      && t.description == (if b.description.Str? then Some(b.description.s) else None)
    // nothing but the category resolution and the create write to the store
    ensures !HasStatus(h, 201) ==> h.store.transactions == s.transactions
    ensures s.categories <= h.store.categories && |h.store.categories| <= |s.categories| + 1
  {
    if !HasRequiredFields(b) then Handled(Reply(400, ErrorJson(MissingFields)), s)
    else
      var amount := ParseIntValue(b.amount);
      if amount.NaN? then Handled(Reply(500, ErrorJson(CreateFailed)), s)
      else if !b.category.Str? then
        // the lookup rejects a name that is not a string
        Handled(Reply(500, ErrorJson(CreateFailed)), s)
      else ResolveAndCreate(s, amount.value, b.category.s, b)
  }

  /** The part of POST after validation: resolve the category name, then create. */
  function ResolveAndCreate(s: Store, amount: int, name: string, b: PostBody): (h: Handled)
    ensures HasStatus(h, 201) || h.response == Reply(500, ErrorJson(CreateFailed))
    ensures HasStatus(h, 201) ==>
      && h.response.payload.Record?
      && var t := h.response.payload.t;
      && h.store.transactions == s.transactions + [t]
      && t.amount == amount
      && b.kind == Str(t.kind)
      && b.date == t.date
      && NamedCategory(h.store.categories, t.categoryId, name)
      && Ok(t.categoryId) == GetOrCreateCategoryId(s, name).0
      && t.description == (if b.description.Str? then Some(b.description.s) else None)
    ensures !HasStatus(h, 201) ==> h.store.transactions == s.transactions
    ensures s.categories <= h.store.categories && |h.store.categories| <= |s.categories| + 1
    ensures h.store == GetOrCreateCategoryId(s, name).1 || HasStatus(h, 201)
  {
    var (categoryId, s1) := GetOrCreateCategoryId(s, name);
    if categoryId.Err? then Handled(Reply(500, ErrorJson(CreateFailed)), s1)
    else
      match CreateTransaction(s1, Num(amount), b.date, b.kind, categoryId.value, b.description)
      case Err(_) => Handled(Reply(500, ErrorJson(CreateFailed)), s1)
      case Ok((t, s2)) => Handled(Reply(201, Record(t)), s2)
  }

  /** GET `/:id`. */
  function Get(s: Store, rawId: string): (h: Handled)
    ensures h.store == s
    ensures ParseDecimal(rawId).NaN? ==> h.response == Reply(500, ErrorJson(DetailFailed))
    ensures ParseDecimal(rawId).Int? ==>
      (h.response == Reply(404, ErrorJson(NotFound)) <==> !HasTransaction(s.transactions, ParseDecimal(rawId).value))
    ensures ParseDecimal(rawId).Int? && HasTransaction(s.transactions, ParseDecimal(rawId).value) ==> HasStatus(h, 200)
    ensures HasStatus(h, 200) ==>
      && h.response.payload.Record?
      && h.response.payload.t in s.transactions
      && Int(h.response.payload.t.id) == ParseDecimal(rawId)
  {
    match FindTransaction(s.transactions, ParseDecimal(rawId))
    case Err(_) => Handled(Reply(500, ErrorJson(DetailFailed)), s)
    case Ok(None) => Handled(Reply(404, ErrorJson(NotFound)), s)
    case Ok(Some(i)) => Handled(Reply(200, Record(s.transactions[i])), s)
  }

  /** PUT `/:id`. */
  function Put(s: Store, rawId: string, b: PutBody): (h: Handled)
    // an amount that does not parse answers 500 and changes nothing
    ensures ParseIntValue(b.amount).NaN? ==> h == Handled(Reply(500, ErrorJson(UpdateFailed)), s)
    ensures h.response.Reply? && h.response.status in {200, 500}
    ensures HasStatus(h, 500) ==> h == Handled(Reply(500, ErrorJson(UpdateFailed)), s)
    // the category table is never written
    ensures h.store.categories == s.categories
    // it succeeds exactly when both numbers parse, the id and the new
    // category exist, and no column gets a value of the wrong type
    ensures HasStatus(h, 200) <==>
      && ParseIntValue(b.amount).Int? && ParseIntValue(b.categoryId).Int?
      && ParseDecimal(rawId).Int? && HasTransaction(s.transactions, ParseDecimal(rawId).value)
      && HasCategory(s.categories, ParseIntValue(b.categoryId).value)
      && !b.kind.Num? && !b.description.Num?
    // on success exactly the record with the path id is replaced
    ensures HasStatus(h, 200) ==>
      && h.response.payload.Record?
      && var t := h.response.payload.t;
      && ParseDecimal(rawId) == Int(t.id)
      && ParseIntValue(b.amount) == Int(t.amount)
      && ParseIntValue(b.categoryId) == Int(t.categoryId)
      && t.date == b.date
      && (b.kind.Str? ==> t.kind == b.kind.s)
      && (b.description.Str? ==> t.description == Some(b.description.s))
      && ReplacedAt(s.transactions, h.store.transactions, t)
  {
    var amount := ParseIntValue(b.amount);
    var categoryId := ParseIntValue(b.categoryId);
    if amount.NaN? then Handled(Reply(500, ErrorJson(UpdateFailed)), s)
    else
      match UpdateTransaction(s, ParseDecimal(rawId), Num(amount.value), b.date, b.kind, categoryId, b.description)
      case Err(_) => Handled(Reply(500, ErrorJson(UpdateFailed)), s)
      case Ok((t, s')) =>
        var i := FirstWithId(s.transactions, ParseDecimal(rawId).value).value;
        assert s.transactions[i].id == t.id && s'.transactions == s.transactions[i := t];
        Handled(Reply(200, Record(t)), s')
  }

  /** DELETE `/:id`. */
  function Delete(s: Store, rawId: string): (h: Handled)
    ensures h.response.Reply? && h.response.status in {204, 500}
    ensures HasStatus(h, 500) ==> h == Handled(Reply(500, ErrorJson(DeleteFailed)), s)
    ensures h.store.categories == s.categories
    // it succeeds exactly when the id parses and a record has it
    ensures HasStatus(h, 204) <==> ParseDecimal(rawId).Int? && HasTransaction(s.transactions, ParseDecimal(rawId).value)
    // a missing id is a storage failure here, not a 404
    ensures ParseDecimal(rawId).Int? && !HasTransaction(s.transactions, ParseDecimal(rawId).value) ==>
      HasStatus(h, 500)
    ensures HasStatus(h, 204) ==>
      && ParseDecimal(rawId).Int?
      && RemovedAt(s.transactions, h.store.transactions, ParseDecimal(rawId).value)
  {
    match DeleteTransaction(s, ParseDecimal(rawId))
    case Err(_) => Handled(Reply(500, ErrorJson(DeleteFailed)), s)
    case Ok((_, s')) => Handled(Reply(204, NoContent), s')
  }

  /** Every write handler keeps an autoincrement store well formed. */
  lemma PostKeepsValid(s: Store, b: PostBody)
    requires Valid(s)
    ensures Valid(Post(s, b).store)
  {
    if HasRequiredFields(b) && ParseIntValue(b.amount).Int? && b.category.Str? {
      ResolveAndCreateKeepsValid(s, ParseIntValue(b.amount).value, b.category.s, b);
    }
  }

  lemma ResolveAndCreateKeepsValid(s: Store, amount: int, name: string, b: PostBody)
    requires Valid(s)
    ensures Valid(ResolveAndCreate(s, amount, name, b).store)
  {
    GetOrCreateKeepsValid(s, name);
    var (categoryId, s1) := GetOrCreateCategoryId(s, name);
    if CreateTransaction(s1, Num(amount), b.date, b.kind, categoryId.value, b.description).Ok? {
      CreateKeepsValid(s1, Num(amount), b.date, b.kind, categoryId.value, b.description);
    }
  }

  lemma PutKeepsValid(s: Store, rawId: string, b: PutBody)
    requires Valid(s)
    ensures Valid(Put(s, rawId, b).store)
  {
    var amount := ParseIntValue(b.amount);
    if amount.Int? {
      var categoryId := ParseIntValue(b.categoryId);
      if UpdateTransaction(s, ParseDecimal(rawId), Num(amount.value), b.date, b.kind, categoryId, b.description).Ok? {
        UpdateKeepsValid(s, ParseDecimal(rawId), Num(amount.value), b.date, b.kind, categoryId, b.description);
      }
    }
  }

  lemma DeleteKeepsValid(s: Store, rawId: string)
    requires Valid(s)
    ensures Valid(Delete(s, rawId).store)
  {
    if DeleteTransaction(s, ParseDecimal(rawId)).Ok? {
      Storage.DeleteKeepsValid(s, ParseDecimal(rawId));
    }
  }

  /**
   * The checks that answer before storage is reached (missing field,
   * unparsable amount) answer the same whatever the store holds.
   */
  lemma PostChecksPrecedeStorage(s1: Store, s2: Store, b: PostBody)
    requires !HasRequiredFields(b) || ParseIntValue(b.amount).NaN?
    ensures Post(s1, b).response == Post(s2, b).response
  {
  }

  /**
   * No sign or type check: in a well-formed store any non-zero amount,
   * negative ones included, and any non-empty type string is stored.
   */
  lemma PostAcceptsAnySignAndType(s: Store, n: int, date: JsValue, kind: string, name: string)
    requires Valid(s)
    requires n != 0 && kind != "" && name != "" && Truthy(date)
    ensures var h := Post(s, PostBody(Num(n), date, Str(kind), Str(name), Undefined));
      && HasStatus(h, 201)
      && h.response.payload.t.amount == n
      && h.response.payload.t.kind == kind
  {
    var b := PostBody(Num(n), date, Str(kind), Str(name), Undefined);
    var h := ResolveAndCreate(s, n, name, b);
    assert HasStatus(h, 201) && h.response.payload.t.amount == n && h.response.payload.t.kind == kind by {
      ResolvedCreateSucceeds(s, n, name, b);
    }
    assert Post(s, b) == h by {
      ParseIntOfNumber(n);
      PostAfterValidation(s, b, n, name);
    }
  }

  /** A request that passes validation goes on to resolve the category and create. */
  lemma PostAfterValidation(s: Store, b: PostBody, amount: int, name: string)
    requires HasRequiredFields(b)
    requires ParseIntValue(b.amount) == Int(amount) && b.category == Str(name)
    ensures Post(s, b) == ResolveAndCreate(s, amount, name, b)
  {
  }

  /** In a well-formed store, resolving and creating cannot fail for string fields. */
  lemma ResolvedCreateSucceeds(s: Store, amount: int, name: string, b: PostBody)
    requires Valid(s)
    requires b.kind.Str? && !b.description.Num?
    ensures var h := ResolveAndCreate(s, amount, name, b);
      && HasStatus(h, 201)
      && h.response.payload.t.amount == amount
      && h.response.payload.t.kind == b.kind.s
  {
    GetOrCreateKeepsValid(s, name);
    var (categoryId, s1) := GetOrCreateCategoryId(s, name);
    var k :| 0 <= k < |s1.categories| && s1.categories[k].id == categoryId.value && s1.categories[k].name == name;
    assert HasCategory(s1.categories, categoryId.value);
  }

  /**
   * Truthiness, not value, decides "missing": the number 0 is rejected as a
   * missing field ...
   */
  lemma ZeroNumberAmountIsMissing(s: Store, date: JsValue, kind: string, name: string)
    ensures Post(s, PostBody(Num(0), date, Str(kind), Str(name), Undefined)) ==
      Handled(Reply(400, ErrorJson(MissingFields)), s)
  {
    assert !HasRequiredFields(PostBody(Num(0), date, Str(kind), Str(name), Undefined));
  }

  /**
   * ... while the same value sent as text is truthy, passes and is stored:
   * the decimal text of any integer, "0" (n = 0) included, stores that integer.
   */
  lemma IntegerTextAmountIsStored(s: Store, n: int, date: JsValue, kind: string, name: string)
    requires Valid(s)
    requires kind != "" && name != "" && Truthy(date)
    ensures var h := Post(s, PostBody(Str(IntToDecimal(n)), date, Str(kind), Str(name), Undefined));
      HasStatus(h, 201) && h.response.payload.t.amount == n
  {
    ParseIntOfDecimalText(n);
    TextAmountIsStored(s, IntToDecimal(n), n, date, kind, name);
  }

  /** Any amount text that parses to `n` is stored as `n`. */
  lemma TextAmountIsStored(s: Store, text: string, n: int, date: JsValue, kind: string, name: string)
    requires Valid(s)
    requires text != "" && ParseIntValue(Str(text)) == Int(n)
    requires kind != "" && name != "" && Truthy(date)
    ensures var h := Post(s, PostBody(Str(text), date, Str(kind), Str(name), Undefined));
      HasStatus(h, 201) && h.response.payload.t.amount == n
  {
    var b := PostBody(Str(text), date, Str(kind), Str(name), Undefined);
    var h := ResolveAndCreate(s, n, name, b);
    assert HasStatus(h, 201) && h.response.payload.t.amount == n by {
      ResolvedCreateSucceeds(s, n, name, b);
    }
    assert Post(s, b) == h by {
      PostAfterValidation(s, b, n, name);
    }
  }


  /** In a well-formed store, a deleted record is no longer found. */
  lemma DeleteThenGetIsNotFound(s: Store, rawId: string)
    requires Valid(s)
    requires HasStatus(Delete(s, rawId), 204)
    ensures Get(Delete(s, rawId).store, rawId).response == Reply(404, ErrorJson(NotFound))
  {
    var id := ParseDecimal(rawId).value;
    var after := Delete(s, rawId).store.transactions;
    assert !HasTransaction(after, id) by {
      RemovedIsAbsent(s.transactions, after, id);
    }
  }
}
