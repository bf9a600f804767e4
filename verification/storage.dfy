/**
 * The relational store behind both backends, as two tables held in
 * sequences plus their autoincrement counters. The database client is not
 * part of this model; its behaviour is stated here as the handlers rely on
 * it:
 *  - `findFirst` answers the first matching row in table order, and a filter
 *    whose value is `undefined` is dropped, so it matches every row;
 *  - a value of the wrong JavaScript type for a column, NaN included, makes
 *    the call fail;
 *  - `update` and `delete` of an id that no row has fail;
 *  - a transaction's `categoryId` must name an existing category (the
 *    relation between the two tables);
 *  - `create` takes the table's next autoincrement id;
 *  - `update` leaves a column alone when its new value is `undefined`.
 * Calls fail for these reasons and no other: a lost connection or any other
 * database error is not modelled, and column ranges are not checked.
 */
module Storage {
  import opened JsValues
  import opened ParseInt

  datatype Option<+T> = None | Some(value: T)

  /** A storage call either answers or fails with a reason. */
  datatype Result<+T> = Ok(value: T) | Err(reason: string)

  datatype Category = Category(id: int, name: string)

  /**
   * A stored transaction; `kind` is the `type` column ("収入" income or
   * "支出" expense by convention, but any string is stored), and the date
   * is kept as the request sent it.
   */
  datatype Transaction = Transaction(
    id: int,
    amount: int,
    date: JsValue,
    kind: string,
    categoryId: int,
    description: Option<string>)

  datatype Store = Store(
    categories: seq<Category>,
    transactions: seq<Transaction>,
    nextCategoryId: int,
    nextTransactionId: int)

  const InvalidArgument := "invalid argument"
  const RecordNotFound := "record not found"
  const ForeignKeyViolation := "foreign key constraint failed"

  predicate HasCategory(cats: seq<Category>, id: int) {
    exists k :: 0 <= k < |cats| && cats[k].id == id
  }

  predicate HasTransaction(ts: seq<Transaction>, id: int) {
    exists k :: 0 <= k < |ts| && ts[k].id == id
  }

  /** Some category is called `name`. */
  predicate HasCategoryNamed(cats: seq<Category>, name: string) {
    exists k :: 0 <= k < |cats| && cats[k].name == name
  }

  /** Some category has this id and this name. */
  predicate NamedCategory(cats: seq<Category>, id: int, name: string) {
    exists k :: 0 <= k < |cats| && cats[k].id == id && cats[k].name == name
  }

  /** `after` is `before` with the record that has `t`'s id replaced by `t`. */
  predicate ReplacedAt(before: seq<Transaction>, after: seq<Transaction>, t: Transaction) {
    exists i :: 0 <= i < |before| && before[i].id == t.id && after == before[i := t]
  }

  /** `after` is `before` without one record that has this id. */
  predicate RemovedAt(before: seq<Transaction>, after: seq<Transaction>, id: int) {
    exists i :: 0 <= i < |before| && before[i].id == id && after == before[..i] + before[i + 1..]
  }

  /** Row `i` is the first category called `name`. */
  predicate IsFirstNamed(cats: seq<Category>, i: int, name: string) {
    && 0 <= i < |cats|
    && cats[i].name == name
    && forall j :: 0 <= j < i ==> cats[j].name != name
  }

  /**
   * What an autoincrement store keeps true: ids are positive, distinct and
   * below the counter, and every transaction names an existing category.
   */
  predicate Valid(s: Store) {
    && 1 <= s.nextCategoryId
    && 1 <= s.nextTransactionId
    && (forall i :: 0 <= i < |s.categories| ==> 1 <= s.categories[i].id < s.nextCategoryId)
    && (forall i, j :: 0 <= i < j < |s.categories| ==> s.categories[i].id != s.categories[j].id)
    && (forall i :: 0 <= i < |s.transactions| ==> 1 <= s.transactions[i].id < s.nextTransactionId)
    && (forall i, j :: 0 <= i < j < |s.transactions| ==> s.transactions[i].id != s.transactions[j].id)
    && (forall i :: 0 <= i < |s.transactions| ==> HasCategory(s.categories, s.transactions[i].categoryId))
  }

  /** `id` is the id of the first category called `name`. */
  predicate FiledUnderFirst(cats: seq<Category>, name: string, id: int) {
    exists i :: 0 <= i < |cats| && IsFirstNamed(cats, i, name) && cats[i].id == id
  }

  /** The row index of the first category called `name`. */
  function FirstNamed(cats: seq<Category>, name: string): (r: Option<nat>)
    ensures r.Some? ==> IsFirstNamed(cats, r.value, name)
    ensures r.None? <==> !HasCategoryNamed(cats, name)
  {
    if |cats| == 0 then None
    else if cats[0].name == name then Some(0)
    else match FirstNamed(cats[1..], name)
      case None => None
      case Some(i) => Some(i + 1)
  }

  /** The row index of the first transaction with this id. */
  function FirstWithId(ts: seq<Transaction>, id: int): (r: Option<nat>)
    ensures r.Some? ==> r.value < |ts| && ts[r.value].id == id
    ensures r.Some? ==> forall j :: 0 <= j < r.value ==> ts[j].id != id
    ensures r.None? <==> !HasTransaction(ts, id)
  {
    if |ts| == 0 then None
    else if ts[0].id == id then Some(0)
    else match FirstWithId(ts[1..], id)
      case None => None
      case Some(i) => Some(i + 1)
  }

  /** `category.findFirst({where: {name: v}})`, as a row index. */
  function FindCategoryByName(cats: seq<Category>, v: JsValue): (r: Result<Option<nat>>)
    ensures r.Err? <==> v.Num?
    ensures v.Str? ==> r == Ok(FirstNamed(cats, v.s))
    ensures v.Undefined? ==> r == Ok(if |cats| == 0 then None else Some(0))
  {
    match v
    case Undefined => Ok(if |cats| == 0 then None else Some(0))
    case Str(name) => Ok(FirstNamed(cats, name))
    case Num(_) => Err(InvalidArgument)
  }

  /** `transaction.findUnique({where: {id}})`, as a row index. */
  function FindTransaction(ts: seq<Transaction>, id: Number): (r: Result<Option<nat>>)
    ensures r.Err? <==> id.NaN?
    ensures id.Int? ==> r == Ok(FirstWithId(ts, id.value))
  {
    match id
    case NaN => Err(InvalidArgument)
    case Int(n) => Ok(FirstWithId(ts, n))
  }

  /** `category.create({data: {name}})`. */
  function InsertCategory(s: Store, name: string): (r: (Category, Store))
    ensures r.0.name == name && r.0.id == s.nextCategoryId
    ensures r.1.categories == s.categories + [r.0]
    ensures r.1.transactions == s.transactions && r.1.nextTransactionId == s.nextTransactionId
  {
    var c := Category(s.nextCategoryId, name);
    (c, s.(categories := s.categories + [c], nextCategoryId := s.nextCategoryId + 1))
  }

  /**
   * `transaction.create({data: {amount, date, type, categoryId, description}})`:
   * amount and type are required, the description may be left out.
   */
  function CreateTransaction(s: Store, amount: JsValue, date: JsValue, kind: JsValue, categoryId: int, description: JsValue)
    : (r: Result<(Transaction, Store)>)
    ensures r.Ok? <==> amount.Num? && kind.Str? && !description.Num? && HasCategory(s.categories, categoryId)
    ensures r.Ok? ==>
      && r.value.0 == Transaction(s.nextTransactionId, amount.n, date, kind.s, categoryId,
                                  if description.Str? then Some(description.s) else None)
      && r.value.1 == s.(transactions := s.transactions + [r.value.0], nextTransactionId := s.nextTransactionId + 1)
  {
    if !amount.Num? || !kind.Str? || description.Num? then Err(InvalidArgument)
    else if !HasCategory(s.categories, categoryId) then Err(ForeignKeyViolation)
    else
      var d := if description.Str? then Some(description.s) else None;
      var tx := Transaction(s.nextTransactionId, amount.n, date, kind.s, categoryId, d);
      Ok((tx, s.(transactions := s.transactions + [tx], nextTransactionId := s.nextTransactionId + 1)))
  }

  /**
   * The stored record after an update: a column given `undefined` keeps its
   * stored value; date and category are always written.
   */
  function Patched(stored: Transaction, amount: JsValue, date: JsValue, kind: JsValue, categoryId: int, description: JsValue)
    : (t: Transaction)
    requires !amount.Str? && !kind.Num? && !description.Num?
    ensures t.id == stored.id && t.date == date && t.categoryId == categoryId
    ensures t.amount == (if amount.Num? then amount.n else stored.amount)
    ensures t.kind == (if kind.Str? then kind.s else stored.kind)
    ensures t.description == (if description.Str? then Some(description.s) else stored.description)
  {
    stored.(
      amount := if amount.Num? then amount.n else stored.amount,
      date := date,
      kind := if kind.Str? then kind.s else stored.kind,
      categoryId := categoryId,
      description := if description.Str? then Some(description.s) else stored.description)
  }

  /** `transaction.update({where: {id}, data: {...}})`. */
  function UpdateTransaction(s: Store, id: Number, amount: JsValue, date: JsValue, kind: JsValue, categoryId: Number, description: JsValue)
    : (r: Result<(Transaction, Store)>)
    ensures r.Ok? <==>
      && id.Int? && categoryId.Int?
      && HasTransaction(s.transactions, id.value)
      && !amount.Str? && !kind.Num? && !description.Num?
      && HasCategory(s.categories, categoryId.value)
    ensures r.Ok? ==>
      var i := FirstWithId(s.transactions, id.value).value;
      && r.value.0 == Patched(s.transactions[i], amount, date, kind, categoryId.value, description)
      && r.value.1 == s.(transactions := s.transactions[i := r.value.0])
  {
    if id.NaN? || categoryId.NaN? then Err(InvalidArgument)
    else match FirstWithId(s.transactions, id.value)
      case None => Err(RecordNotFound)
      case Some(i) =>
        if amount.Str? || kind.Num? || description.Num? then Err(InvalidArgument)
        else if !HasCategory(s.categories, categoryId.value) then Err(ForeignKeyViolation)
        else
          var tx := Patched(s.transactions[i], amount, date, kind, categoryId.value, description);
          Ok((tx, s.(transactions := s.transactions[i := tx])))
  }

  /** A record appended under a fresh id is found at the end. */
  lemma {:induction false} FirstWithIdOfAppended(ts: seq<Transaction>, t: Transaction)
    requires !HasTransaction(ts, t.id)
    ensures FirstWithId(ts + [t], t.id) == Some(|ts|)
  {
    if |ts| > 0 {
      FirstWithIdOfAppended(ts[1..], t);
      assert (ts + [t])[1..] == ts[1..] + [t];
    }
  }

  /** `transaction.delete({where: {id}})`. */
  function DeleteTransaction(s: Store, id: Number): (r: Result<(Transaction, Store)>)
    ensures r.Ok? <==> id.Int? && HasTransaction(s.transactions, id.value)
    ensures r.Ok? ==>
      var i := FirstWithId(s.transactions, id.value).value;
      && r.value.0 == s.transactions[i]
      && r.value.1 == s.(transactions := s.transactions[..i] + s.transactions[i + 1..])
  {
    if id.NaN? then Err(InvalidArgument)
    else match FirstWithId(s.transactions, id.value)
      case Some(i) =>
        Ok((s.transactions[i], s.(transactions := s.transactions[..i] + s.transactions[i + 1..])))
      case None => Err(RecordNotFound)
  }

  lemma InsertCategoryKeepsValid(s: Store, name: string)
    requires Valid(s)
    ensures InsertCategory(s, name).0.id != 0
    ensures Valid(InsertCategory(s, name).1)
  {
    var s' := InsertCategory(s, name).1;
    forall i | 0 <= i < |s'.transactions|
      ensures HasCategory(s'.categories, s'.transactions[i].categoryId)
    {
      assert HasCategory(s.categories, s.transactions[i].categoryId);
      var k :| 0 <= k < |s.categories| && s.categories[k].id == s.transactions[i].categoryId;
      assert s'.categories[k] == s.categories[k];
    }
  }

  lemma CreateKeepsValid(s: Store, amount: JsValue, date: JsValue, kind: JsValue, categoryId: int, description: JsValue)
    requires Valid(s)
    requires CreateTransaction(s, amount, date, kind, categoryId, description).Ok?
    ensures Valid(CreateTransaction(s, amount, date, kind, categoryId, description).value.1)
  {
  }

  lemma UpdateKeepsValid(s: Store, id: Number, amount: JsValue, date: JsValue, kind: JsValue, categoryId: Number, description: JsValue)
    requires Valid(s)
    requires UpdateTransaction(s, id, amount, date, kind, categoryId, description).Ok?
    ensures Valid(UpdateTransaction(s, id, amount, date, kind, categoryId, description).value.1)
  {
  }

  lemma DeleteKeepsValid(s: Store, id: Number)
    requires Valid(s)
    requires DeleteTransaction(s, id).Ok?
    ensures Valid(DeleteTransaction(s, id).value.1)
  {
    var ts := s.transactions;
    var i := FirstWithId(ts, id.value).value;
    var rest := ts[..i] + ts[i + 1..];
    assert DeleteTransaction(s, id).value.1 == s.(transactions := rest);
    forall k | 0 <= k < |rest|
      ensures rest[k] == ts[if k < i then k else k + 1]
    {
    }
    forall a, b | 0 <= a < b < |rest|
      ensures rest[a].id != rest[b].id
    {
      assert rest[a] == ts[if a < i then a else a + 1];
      assert rest[b] == ts[if b < i then b else b + 1];
    }
  }

  /** With distinct ids, a removed record's id is gone from the table. */
  lemma RemovedIsAbsent(before: seq<Transaction>, after: seq<Transaction>, id: int)
    requires forall i, j :: 0 <= i < j < |before| ==> before[i].id != before[j].id
    requires RemovedAt(before, after, id)
    ensures !HasTransaction(after, id)
  {
    var i :| 0 <= i < |before| && before[i].id == id && after == before[..i] + before[i + 1..];
    forall k | 0 <= k < |after|
      ensures after[k].id != id
    {
      if k < i {
        assert after[k] == before[k];
      } else {
        assert after[k] == before[k + 1];
      }
    }
  }
}
