/**
 * A fake ArticleRepository: a working in-memory store keyed by the identifier's string,
 * last write wins, seedable at construction, with extra queries for tests.
 */
module ArticleRepositoryFakes {
  import opened Wrappers
  import opened ArticleIds
  import opened Articles

  /** No key occurs twice. */
  predicate Distinct(keys: seq<string>)
  {
    forall i, j :: 0 <= i < j < |keys| ==> keys[i] != keys[j]
  }

  /** `keys` with `key` taken out, the others kept in order. */
  function Without(keys: seq<string>, key: string): (r: seq<string>)
    ensures forall k :: k in r <==> k in keys && k != key
    ensures Distinct(keys) ==> Distinct(r)
    ensures key !in keys ==> r == keys
  {
    if keys == [] then []
    else if keys[0] == key then Without(keys[1..], key)
    else
      var rest := Without(keys[1..], key);
      assert Distinct(keys) ==> Distinct(keys[1..]) && keys[0] !in rest by {
        if Distinct(keys) {
          assert forall i :: 0 <= i < |keys[1..]| ==> keys[1..][i] == keys[i + 1];
        }
      }
      var r := [keys[0]] + rest;
      assert forall i :: 1 <= i < |r| ==> r[i] == rest[i - 1];
      r
  }

  /** A list without repeats has as many elements as the set of its elements. */
  lemma {:induction false} DistinctCardinality(keys: seq<string>)
    requires Distinct(keys)
    ensures |set k | k in keys| == |keys|
  {
    if keys != [] {
      var rest := keys[1..];
      assert Distinct(rest);
      DistinctCardinality(rest);
      assert (set k | k in keys) == {keys[0]} + (set k | k in rest);
      assert keys[0] !in rest;
    }
  }

  /** The values stored under `keys`, in the order of `keys`. */
  function ValuesAt(keys: seq<string>, articles: map<string, Article>): (r: seq<Article>)
    requires forall k :: k in keys ==> k in articles
    ensures |r| == |keys|
    ensures forall i :: 0 <= i < |keys| ==> r[i] == articles[keys[i]]
  {
    if keys == [] then [] else [articles[keys[0]]] + ValuesAt(keys[1..], articles)
  }

  /** Every key's value is among the listed values. */
  lemma ValuesAtListsEveryKey(keys: seq<string>, articles: map<string, Article>, key: string)
    requires forall k :: k in keys ==> k in articles
    requires key in keys
    ensures articles[key] in ValuesAt(keys, articles)
  {
  }

  /** Listing a key order without repeats that covers the whole store: one value per entry. */
  lemma ListingCoversStore(keys: seq<string>, articles: map<string, Article>)
    requires Distinct(keys)
    requires forall k :: k in articles <==> k in keys
    ensures |ValuesAt(keys, articles)| == |articles|
    ensures forall k :: k in articles ==> articles[k] in ValuesAt(keys, articles)
  {
    DistinctCardinality(keys);
    assert (set k | k in keys) == articles.Keys;
    forall k | k in articles ensures articles[k] in ValuesAt(keys, articles) {
      ValuesAtListsEveryKey(keys, articles, k);
    }
  }

  /** When each value carries its own key, a listing over distinct keys has distinct identifiers. */
  lemma ListingHasDistinctIds(keys: seq<string>, articles: map<string, Article>)
    requires Distinct(keys)
    requires forall k :: k in keys ==> k in articles
    requires forall k :: k in articles ==> articles[k].id.ToString() == k
    ensures forall i, j :: 0 <= i < j < |keys| ==> ValuesAt(keys, articles)[i].id != ValuesAt(keys, articles)[j].id
  {
  }

  /** The store the constructor builds: each article set under its identifier, in list order. */
  function Seeded(initial: seq<Article>): map<string, Article>
  {
    if initial == [] then map[]
    else
      var last := initial[|initial| - 1];
      Seeded(initial[..|initial| - 1])[last.id.ToString() := last]
  }

  /** Seeding stores exactly the identifiers of the initial articles. */
  lemma {:induction false} SeededKeys(initial: seq<Article>, key: string)
    ensures key in Seeded(initial) <==> exists i :: 0 <= i < |initial| && initial[i].id.ToString() == key
  {
    if initial != [] {
      var n := |initial| - 1;
      var front := initial[..n];
      SeededKeys(front, key);
      assert forall i :: 0 <= i < n ==> front[i] == initial[i];
    }
  }

  /** Under each stored identifier seeding keeps the last article of the list that carries it. */
  lemma {:induction false} SeededLastWins(initial: seq<Article>, key: string)
    requires key in Seeded(initial)
    ensures exists i :: && 0 <= i < |initial| && initial[i] == Seeded(initial)[key]
                        && initial[i].id.ToString() == key
                        && forall j :: i < j < |initial| ==> initial[j].id.ToString() != key
  {
    var n := |initial| - 1;
    if initial[n].id.ToString() != key {
      var front := initial[..n];
      assert key in Seeded(front);
      SeededLastWins(front, key);
      var i :| && 0 <= i < |front| && front[i] == Seeded(front)[key]
               && front[i].id.ToString() == key
               && forall j :: i < j < |front| ==> front[j].id.ToString() != key;
      assert initial[i] == front[i];
      assert forall j :: i < j < n ==> initial[j] == front[j];
    }
  }

  /**
   * The fake. `articles` is the Map's content; `order` is the Map's iteration order: the present
   * keys in the order they were last added as new keys (a deleted key that is set again goes last).
   */
  class ArticleRepositoryFake {
    var articles: map<string, Article>
    var order: seq<string>

    ghost predicate Valid()
      reads this
    {
      && Distinct(order)
      && (forall k :: k in articles <==> k in order)
      && (forall k :: k in articles ==> articles[k].id.ToString() == k)
    }

    /** Seeds the store with the initial articles, a later one replacing an earlier one with the same identifier. */
    constructor (initialArticles: seq<Article>)
      ensures Valid()
      ensures articles == Seeded(initialArticles)
    {
      articles := map[];
      order := [];
      new;
      for i := 0 to |initialArticles|
        invariant Valid()
        invariant articles == Seeded(initialArticles[..i])
      {
        assert initialArticles[..i + 1][..i] == initialArticles[..i];
        Save(initialArticles[i]);
      }
      assert initialArticles[..|initialArticles|] == initialArticles;
    }

    /** Stores the article under its identifier, replacing whatever was stored there. */
    method Save(article: Article)
      requires Valid()
      modifies this
      ensures Valid()
      ensures articles == old(articles)[article.id.ToString() := article]
      ensures order == if article.id.ToString() in old(articles) then old(order) else old(order) + [article.id.ToString()]
      ensures FindById(article.id) == Some(article)
      ensures forall id: ArticleId :: id.ToString() != article.id.ToString() ==> FindById(id) == old(FindById(id))
    {
      var key := article.id.ToString();
      if key !in articles {
        order := order + [key];
      }
      articles := articles[key := article];
    }

    /** Removes the entry for the identifier; an absent identifier is no error and changes nothing. */
    method Delete(articleId: ArticleId)
      requires Valid()
      modifies this
      ensures Valid()
      ensures articles == old(articles) - {articleId.ToString()}
      ensures order == Without(old(order), articleId.ToString())
      ensures FindById(articleId) == None && !WasSaved(articleId)
      ensures old(!WasSaved(articleId)) ==> articles == old(articles) && order == old(order)
    {
      var key := articleId.ToString();
      articles := articles - {key};
      order := Without(order, key);
    }

    /** Every stored article once, in insertion order: one per distinct identifier. */
    function FindAll(): (r: seq<Article>)
      reads this
      requires Valid()
      ensures |r| == |articles|
      ensures forall i :: 0 <= i < |r| ==> r[i] in articles.Values
      ensures forall k :: k in articles ==> articles[k] in r
      ensures forall i, j :: 0 <= i < j < |r| ==> r[i].id != r[j].id
    {
      ListingCoversStore(order, articles);
      ListingHasDistinctIds(order, articles);
      ValuesAt(order, articles)
    }

    /** The article stored under the identifier's string, or none. */
    function FindById(id: ArticleId): (r: Option<Article>)
      reads this
      ensures r.Some? <==> id.ToString() in articles
      ensures r.Some? ==> r.value == articles[id.ToString()]
    {
      if id.ToString() in articles then Some(articles[id.ToString()]) else None
    }

    function GetSavedArticleById(id: ArticleId): (r: Option<Article>)
      reads this
      ensures r == FindById(id)
    {
      if id.ToString() in articles then Some(articles[id.ToString()]) else None
    }

    function GetAllSaved(): (r: seq<Article>)
      reads this
      requires Valid()
      ensures r == FindAll()
    {
      ValuesAt(order, articles)
    }

    function WasSaved(id: ArticleId): (r: bool)
      reads this
      ensures r <==> FindById(id).Some?
    {
      id.ToString() in articles
    }

    /** Empties the store. */
    method Reset()
      modifies this
      ensures Valid()
      ensures articles == map[] && order == []
      ensures FindAll() == []
      ensures forall id: ArticleId :: !WasSaved(id) && FindById(id) == None
    {
      articles := map[];
      order := [];
    }
  }

  /** Value-equal identifiers get the same lookup answers. */
  lemma EqualIdsShareEntry(fake: ArticleRepositoryFake, a: ArticleId, b: ArticleId)
    requires a.Equals(Some(b))
    ensures fake.FindById(a) == fake.FindById(b) && fake.WasSaved(a) == fake.WasSaved(b)
  {
  }
}
