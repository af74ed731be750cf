/**
 The landing page's catalogue search: the cars whose title, company or
 description contains the search term, compared without regard to ASCII
 letter case, kept in their listed order, with a "no cars found" notice
 when none is left.
 */
module Catalogue {
  import opened Text
  import opened Sequences

  /** The fields of a listing that the search looks at (the rest is only displayed). */
  datatype Car = Car(id: string, title: string, company: string, description: string)

  /** The one listing the page lists today. */
  const Cars: seq<Car> := [Car("6737106463d91a993cbb5e29", "Audi A8", "Audi", "The First in Class All new Audi A8")]

  /** The test passed to `cars.filter`. */
  predicate Matches(term: string, car: Car) {
    var t := Lower(term);
    Contains(Lower(car.title), t) || Contains(Lower(car.company), t) || Contains(Lower(car.description), t)
  }

  /** `filteredCars`. */
  function FilteredCars(cars: seq<Car>, term: string): seq<Car> {
    Filter(cars, car => Matches(term, car))
  }

  /** The notice is rendered exactly when nothing is left to show. */
  predicate ShowsNoCarsNotice(cars: seq<Car>, term: string) {
    |FilteredCars(cars, term)| == 0
  }

  /** A car of the catalogue is shown exactly when the lower-cased term occurs in one of its three lower-cased fields. */
  lemma ShownIffMatches(cars: seq<Car>, term: string, car: Car)
    requires car in cars
    ensures car in FilteredCars(cars, term) <==>
              exists i :: OccursAt(Lower(car.title), Lower(term), i)
                       || OccursAt(Lower(car.company), Lower(term), i)
                       || OccursAt(Lower(car.description), Lower(term), i)
  {
    var t := Lower(term);
    ContainsIffOccurs(Lower(car.title), t);
    ContainsIffOccurs(Lower(car.company), t);
    ContainsIffOccurs(Lower(car.description), t);
    var k :| 0 <= k < |cars| && cars[k] == car;
    if car in FilteredCars(cars, term) {
      var j :| 0 <= j < |FilteredCars(cars, term)| && FilteredCars(cars, term)[j] == car;
    }
  }

  /** An empty search box shows every car, in order. */
  lemma EmptyTermKeepsAll(cars: seq<Car>)
    ensures FilteredCars(cars, "") == cars
  {
    forall i | 0 <= i < |cars|
      ensures Matches("", cars[i])
    {
      ContainsEmpty(Lower(cars[i].title));
    }
    FilterKeepsAll(cars, car => Matches("", car));
  }

  /** The result keeps the cars' order and never repeats or invents one. */
  lemma ResultIsSubsequence(cars: seq<Car>, term: string, car: Car)
    ensures IsSubsequence(FilteredCars(cars, term), cars)
    ensures multiset(FilteredCars(cars, term))[car] <= multiset(cars)[car]
  {
    FilterIsSubsequence(cars, c => Matches(term, c));
    FilterMultiset(cars, c => Matches(term, c), car);
  }

  /** Two terms that differ only in ASCII letter case give the same result. */
  lemma CaseInsensitive(cars: seq<Car>, term1: string, term2: string)
    requires Lower(term1) == Lower(term2)
    ensures FilteredCars(cars, term1) == FilteredCars(cars, term2)
  {
    FilterCongruent(cars, c => Matches(term1, c), c => Matches(term2, c));
  }

  /** Typing the term already in lower case gives the same result as typing it as it was. */
  lemma LowerCasedTermSameResult(cars: seq<Car>, term: string)
    ensures FilteredCars(cars, Lower(term)) == FilteredCars(cars, term)
  {
    LowerIdempotent(term);
    CaseInsensitive(cars, Lower(term), term);
  }

  /** Searching the result again for the same term changes nothing. */
  lemma SearchIdempotent(cars: seq<Car>, term: string)
    ensures FilteredCars(FilteredCars(cars, term), term) == FilteredCars(cars, term)
  {
    FilterIdempotent(cars, c => Matches(term, c));
  }

  /** The notice appears exactly when no car of the catalogue matches. */
  lemma NoticeIffNoMatch(cars: seq<Car>, term: string)
    ensures ShowsNoCarsNotice(cars, term) <==> forall i :: 0 <= i < |cars| ==> !Matches(term, cars[i])
  {
    if !ShowsNoCarsNotice(cars, term) {
      var r := FilteredCars(cars, term);
      assert r[0] in cars;
    }
  }

  /** Typing "AUDI" keeps the listed car: "audi" starts its lower-cased title. */
  lemma UpperCaseTermFindsListedCar()
    ensures FilteredCars(Cars, "AUDI") == Cars
    ensures !ShowsNoCarsNotice(Cars, "AUDI")
  {
    var title := Lower(Cars[0].title);
    assert Lower("AUDI") == "audi";
    assert title[..4] == "audi";
    assert Matches("AUDI", Cars[0]);
    FilterKeepsAll(Cars, car => Matches("AUDI", car));
  }
}
