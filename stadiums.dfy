/** The stadium listing (app/api/stadiums/route.ts): a constant table of
    stadiums and the `GET` search that narrows it by city and by a free-text
    query, both compared case-insensitively. */
module Stadiums {
  import opened Text

  datatype Field = Field(id: string, name: string, fieldType: string, capacity: int, pricePerHour: int)

  datatype Stadium = Stadium(
    id: string, name: string, description: string, location: string, city: string,
    latitude: real, longitude: real, phone: string, imageUrl: string,
    rating: real, totalReviews: int, fields: seq<Field>)

  /** `mockStadiums` */
  const MockStadiums: seq<Stadium> := [
    Stadium("1", "Central Soccer Arena", "Premium indoor and outdoor fields in the heart of the city",
      "Amir Timur Avenue, Tashkent", "Tashkent", 41.3775, 69.1221, "+998 71 233 5555", "/placeholder.jpg",
      4.8, 124, [
        Field("1-1", "Field 1 - Premium", "artificial", 22, 50000),
        Field("1-2", "Field 2 - Standard", "grass", 22, 35000)]),
    Stadium("2", "North Star Sports Complex", "Modern facility with professional-grade fields",
      "Fergona Road, Tashkent", "Tashkent", 41.3900, 69.2100, "+998 71 244 6666", "/placeholder.jpg",
      4.6, 89, [
        Field("2-1", "Field 1", "artificial", 22, 45000),
        Field("2-2", "Field 2", "artificial", 22, 45000),
        Field("2-3", "Field 3", "grass", 22, 30000)]),
    Stadium("3", "East Side Sports Hub", "Budget-friendly soccer complex with multiple fields",
      "Chilanzar, Tashkent", "Tashkent", 41.3600, 69.2500, "+998 71 255 7777", "/placeholder.jpg",
      4.3, 67, [
        Field("3-1", "Field 1", "grass", 22, 25000),
        Field("3-2", "Field 2", "grass", 22, 25000)]),
    Stadium("4", "Downtown Football Stadium", "Large capacity stadium perfect for tournaments",
      "Uzbekistan Avenue, Tashkent", "Tashkent", 41.3800, 69.1700, "+998 71 266 8888", "/placeholder.jpg",
      4.9, 156, [
        Field("4-1", "Main Field", "artificial", 22, 60000),
        Field("4-2", "Practice Field", "artificial", 22, 50000)]),
    Stadium("5", "West End Training Center", "Ideal for training and casual games",
      "Moyqo'rg'on, Tashkent", "Tashkent", 41.3500, 69.0800, "+998 71 277 9999", "/placeholder.jpg",
      4.4, 91, [
        Field("5-1", "Field 1", "artificial", 22, 40000),
        Field("5-2", "Field 2", "mixed", 22, 35000)])
  ]

  /** `a` is `b` with some elements removed, the rest in their order. */
  predicate SubsequenceOf<T(==)>(a: seq<T>, b: seq<T>)
    decreases |b|
  {
    if a == [] then true
    else if b == [] then false
    else (a[0] == b[0] && SubsequenceOf(a[1..], b[1..])) || SubsequenceOf(a, b[1..])
  }

  /** `xs.filter(keep)` */
  function Filter<T(==,!new)>(xs: seq<T>, keep: T -> bool): (r: seq<T>)
    ensures forall x :: x in r <==> x in xs && keep(x)
    ensures SubsequenceOf(r, xs)
  {
    if xs == [] then []
    else if keep(xs[0]) then
      var rest := Filter(xs[1..], keep);
      assert ([xs[0]] + rest)[1..] == rest;
      [xs[0]] + rest
    else
      Filter(xs[1..], keep)
  }

  lemma {:induction false} SubsequenceReflexive<T>(a: seq<T>)
    ensures SubsequenceOf(a, a)
  {
    if a != [] {
      SubsequenceReflexive(a[1..]);
    }
  }

  lemma {:induction false} SubsequenceTransitive<T>(a: seq<T>, b: seq<T>, c: seq<T>)
    requires SubsequenceOf(a, b) && SubsequenceOf(b, c)
    ensures SubsequenceOf(a, c)
    decreases |c|
  {
    if a != [] {
      if SubsequenceOf(b, c[1..]) {
        SubsequenceTransitive(a, b, c[1..]);
      } else if a[0] == b[0] && SubsequenceOf(a[1..], b[1..]) {
        SubsequenceTransitive(a[1..], b[1..], c[1..]);
      } else {
        SubsequenceTransitive(a, b[1..], c[1..]);
      }
    }
  }

  /** Filtering keeps order: filtering a concatenation filters each part. */
  lemma {:induction false} FilterAppend<T(!new)>(xs: seq<T>, ys: seq<T>, keep: T -> bool)
    ensures Filter(xs + ys, keep) == Filter(xs, keep) + Filter(ys, keep)
  {
    if xs != [] {
      assert (xs + ys)[0] == xs[0];
      assert (xs + ys)[1..] == xs[1..] + ys;
      FilterAppend(xs[1..], ys, keep);
    } else {
      assert xs + ys == ys;
    }
  }

  /** Filtering depends only on which elements the predicate keeps. */
  lemma {:induction false} FilterCongruent<T(!new)>(xs: seq<T>, p: T -> bool, q: T -> bool)
    requires forall x :: x in xs ==> p(x) == q(x)
    ensures Filter(xs, p) == Filter(xs, q)
  {
    if xs != [] {
      assert forall x :: x in xs[1..] ==> x in xs;
      FilterCongruent(xs[1..], p, q);
    }
  }

  /** The city filter: `s.city.toLowerCase().includes(city.toLowerCase())`. */
  predicate InCity(s: Stadium, city: string)
  {
    Includes(ToLower(s.city), ToLower(city))
  }

  /** The query filter: the lower-cased query occurs in the lower-cased name,
      description or location. */
  predicate MatchesQuery(s: Stadium, query: string)
  {
    var q := ToLower(query);
    Includes(ToLower(s.name), q) || Includes(ToLower(s.description), q) || Includes(ToLower(s.location), q)
  }

  /** A stadium passes every filter that is switched on; an absent or empty
      parameter switches its filter off. */
  predicate Selected(s: Stadium, city: Option<string>, query: Option<string>)
  {
    (Truthy(city) ==> InCity(s, city.value)) && (Truthy(query) ==> MatchesQuery(s, query.value))
  }

  /** The response body: `data` and `count`. */
  datatype SearchResult = SearchResult(data: seq<Stadium>, count: int)

  /** The `GET` handler's filtering over `stadiums`. */
  function Search(stadiums: seq<Stadium>, city: Option<string>, query: Option<string>): (r: SearchResult)
    ensures r.count == |r.data|
    ensures SubsequenceOf(r.data, stadiums)
    ensures forall s :: s in r.data <==> s in stadiums && Selected(s, city, query)
  {
    var byCity := if Truthy(city) then Filter(stadiums, s => InCity(s, city.value)) else stadiums;
    SubsequenceReflexive(stadiums);
    var results := if Truthy(query) then Filter(byCity, s => MatchesQuery(s, query.value)) else byCity;
    SubsequenceReflexive(byCity);
    SubsequenceTransitive(results, byCity, stadiums);
    SearchResult(results, |results|)
  }

  /** Neither filter switched on: all five stadiums, in their order. */
  lemma NoFilterReturnsAll(city: Option<string>, query: Option<string>)
    requires !Truthy(city) && !Truthy(query)
    ensures Search(MockStadiums, city, query) == SearchResult(MockStadiums, 5)
  {
  }

  lemma ToLowerIdempotent(s: string)
    ensures ToLower(ToLower(s)) == ToLower(s)
  {
    assert forall c :: LowerChar(LowerChar(c)) == LowerChar(c);
  }

  /** Lower-casing a parameter first does not change the answer. */
  lemma {:induction false} SearchIgnoresCase(stadiums: seq<Stadium>, city: Option<string>, query: Option<string>)
    ensures Search(stadiums, city, query) ==
      Search(stadiums, LowerOption(city), LowerOption(query))
  {
    var city', query' := LowerOption(city), LowerOption(query);
    if Truthy(city) {
      ToLowerIdempotent(city.value);
      FilterCongruent(stadiums, s => InCity(s, city.value), s => InCity(s, city'.value));
    }
    var byCity := if Truthy(city) then Filter(stadiums, s => InCity(s, city.value)) else stadiums;
    if Truthy(query) {
      ToLowerIdempotent(query.value);
      FilterCongruent(byCity, s => MatchesQuery(s, query.value), s => MatchesQuery(s, query'.value));
    }
  }

  function LowerOption(s: Option<string>): (r: Option<string>)
    ensures Truthy(r) <==> Truthy(s)
  {
    if s.Some? then Some(ToLower(s.value)) else None
  }
}
