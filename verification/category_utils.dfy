/**
 * `getOrCreateCategoryId`: the category id for a name, creating the
 * category when no row has that name yet.
 */
module CategoryUtils {
  import opened Storage

  const IdLookupFailed := "カテゴリーIDの取得に失敗しました"

  /**
   * Looks the name up (first row in table order), inserts one category when
   * there is none, and answers its id; a falsy id (0) raises instead.
   */
  function GetOrCreateCategoryId(s: Store, name: string): (r: (Result<int>, Store))
    // the name is known: nothing is written and the first such row answers
    ensures HasCategoryNamed(s.categories, name) ==> r.1 == s
    ensures forall i :: IsFirstNamed(s.categories, i, name) ==>
      r.0 == (if s.categories[i].id == 0 then Err(IdLookupFailed) else Ok(s.categories[i].id))
    // the name is new: exactly one category is appended, with the next id
    ensures !HasCategoryNamed(s.categories, name) ==>
      && r.1 == s.(categories := s.categories + [Category(s.nextCategoryId, name)],
                   nextCategoryId := s.nextCategoryId + 1)
      && r.0 == (if s.nextCategoryId == 0 then Err(IdLookupFailed) else Ok(s.nextCategoryId))
    // in every case: at most one row more, earlier rows and transactions untouched
    ensures |r.1.categories| <= |s.categories| + 1
    ensures s.categories <= r.1.categories
    ensures r.1.transactions == s.transactions
    // an answered id is non-zero and belongs to a category with this name
    ensures r.0.Ok? ==> r.0.value != 0
    ensures r.0.Ok? ==> NamedCategory(r.1.categories, r.0.value, name)
  {
    match FirstNamed(s.categories, name)
    case Some(i) =>
      (IdOf(s.categories[i]), s)
    case None =>
      var (created, s') := InsertCategory(s, name);
      assert s'.categories[|s.categories|] == created;
      (IdOf(created), s')
  }

  /** The id of the resolved category, or the error a falsy id raises. */
  function IdOf(c: Category): (r: Result<int>)
    ensures r.Ok? <==> c.id != 0
    ensures r.Ok? ==> r.value == c.id
  {
    if c.id != 0 then Ok(c.id) else Err(IdLookupFailed)
  }

  /**
   * A second call with the same name answers the same and writes nothing,
   * whether the first call found the category or created it.
   */
  lemma GetOrCreateIdempotent(s: Store, name: string)
    ensures var (r1, s1) := GetOrCreateCategoryId(s, name);
      GetOrCreateCategoryId(s1, name) == (r1, s1)
  {
    var (r1, s1) := GetOrCreateCategoryId(s, name);
    match FirstNamed(s.categories, name)
    case Some(i) =>
    case None =>
      var n := |s.categories|;
      assert IsFirstNamed(s1.categories, n, name);
      FirstNamedAgrees(s1.categories, n, name);
  }

  /** The lookup answers exactly the first row with the name. */
  lemma FirstNamedAgrees(cats: seq<Category>, i: int, name: string)
    requires IsFirstNamed(cats, i, name)
    ensures FirstNamed(cats, name) == Some(i)
  {
  }

  /**
   * In a store whose ids come from its autoincrement counter, the falsy-id
   * error cannot happen, and the store stays well formed.
   */
  lemma GetOrCreateKeepsValid(s: Store, name: string)
    requires Valid(s)
    ensures GetOrCreateCategoryId(s, name).0.Ok?
    ensures Valid(GetOrCreateCategoryId(s, name).1)
  {
    match FirstNamed(s.categories, name)
    case Some(i) =>
    case None => InsertCategoryKeepsValid(s, name);
  }
}
