/** The business-type catalogue: the Google place types grouped into
    categories, the sorted list of every type, and the type-to-category
    index built from the groups. */
module Catalogue {
  import opened StrOrder

  /** One entry of the category table: its name and its place types. */
  datatype Category = Category(name: string, types: seq<string>)

  /** `BUSINESS_CATEGORIES`, in the order it is written. */
  const BusinessCategories: seq<Category> := [
    Automotive, Business, Culture, Education, EntertainmentAndRecreation,
    Facilities, Finance, FoodAndDrink, GeographicalAreas, Government,
    HealthAndWellness, Housing, Lodging, NaturalFeatures, PlacesOfWorship,
    Services, Shopping, Sports, Transportation
  ]

  const Automotive: Category := Category("Automotive", [
    "car_dealer", "car_repair", "car_rental", "gas_station", "parking",
    "electric_vehicle_charging_station"
  ])
  const Business: Category := Category("Business", [
    "corporate_office", "real_estate_agency", "consultant",
    "insurance_agency", "lawyer", "accounting"
  ])
  const Culture: Category := Category("Culture", ["museum", "art_gallery", "cultural_center", "historical_place"])
  const Education: Category := Category("Education", [
    "university", "school", "library", "preschool", "primary_school",
    "secondary_school"
  ])
  const EntertainmentAndRecreation: Category := Category("Entertainment and Recreation", [
    "amusement_park", "zoo", "movie_theater", "night_club",
    "bowling_alley", "tourist_attraction", "aquarium", "casino",
    "event_venue", "park"
  ])
  const Facilities: Category := Category("Facilities", ["public_bathroom", "stable"])
  const Finance: Category := Category("Finance", ["bank", "atm", "accounting"])
  const FoodAndDrink: Category := Category("Food and Drink", [
    "restaurant", "cafe", "bar", "meal_delivery", "meal_takeaway",
    "bakery", "fast_food_restaurant", "pub", "coffee_shop"
  ])
  const GeographicalAreas: Category := Category("Geographical Areas", [])
  const Government: Category := Category("Government", [
    "city_hall", "police", "fire_station", "embassy", "courthouse",
    "post_office"
  ])
  const HealthAndWellness: Category := Category("Health and Wellness", [
    "pharmacy", "doctor", "dentist", "hospital", "veterinary_care", "spa",
    "chiropractor", "physiotherapist"
  ])
  const Housing: Category := Category("Housing", ["apartment_complex", "housing_complex"])
  const Lodging: Category := Category("Lodging", [
    "hotel", "bed_and_breakfast", "motel", "hostel", "campground",
    "resort_hotel"
  ])
  const NaturalFeatures: Category := Category("Natural Features", ["beach", "national_park"])
  const PlacesOfWorship: Category := Category("Places of Worship", ["church", "mosque", "hindu_temple", "synagogue"])
  const Services: Category := Category("Services", [
    "electrician", "plumber", "courier_service", "laundry", "tailor",
    "barber_shop", "beauty_salon", "locksmith", "funeral_home",
    "hair_salon", "child_care_agency", "travel_agency"
  ])
  const Shopping: Category := Category("Shopping", [
    "shopping_mall", "grocery_store", "convenience_store", "supermarket",
    "hardware_store", "clothing_store", "electronics_store",
    "furniture_store", "liquor_store", "pet_store", "book_store",
    "department_store", "jewelry_store", "shoe_store"
  ])
  const Sports: Category := Category("Sports", [
    "fitness_center", "gym", "stadium", "golf_course", "swimming_pool",
    "sports_complex"
  ])
  const Transportation: Category := Category("Transportation", [
    "train_station", "bus_station", "taxi_stand", "subway_station",
    "airport", "ferry_terminal"
  ])

  /** `t` is listed under some category. */
  predicate Listed(cats: seq<Category>, t: string) {
    exists i :: 0 <= i < |cats| && t in cats[i].types
  }

  /** Every category's types, one category after another. */
  function Flatten(cats: seq<Category>): (r: seq<string>)
    ensures forall t :: t in r <==> Listed(cats, t)
  {
    if |cats| == 0 then []
    else
      var rest := Flatten(cats[1..]);
      assert forall t :: Listed(cats, t) <==> t in cats[0].types || Listed(cats[1..], t) by {
        forall t ensures Listed(cats, t) <==> t in cats[0].types || Listed(cats[1..], t) {
          if Listed(cats, t) && t !in cats[0].types {
            var i :| 0 <= i < |cats| && t in cats[i].types;
            assert t in cats[1..][i - 1].types;
          }
          if Listed(cats[1..], t) {
            var i :| 0 <= i < |cats[1..]| && t in cats[1..][i].types;
            assert t in cats[i + 1].types;
          }
        }
      }
      cats[0].types + rest
  }

  /** `sorted({t for types in categories.values() for t in types})`: each
      listed type once, ascending; an empty category adds nothing. */
  function AllTypes(cats: seq<Category>): (r: seq<string>)
    ensures StrictlySorted(r)
    ensures forall t :: t in r <==> Listed(cats, t)
  {
    SortedSet(Flatten(cats))
  }

  /** `ALL_BUSINESS_TYPES`. */
  const AllBusinessTypes: seq<string> := AllTypes(BusinessCategories)

  /** The index of one category: each of its types to its name. */
  function Index(c: Category): (m: map<string, string>)
    ensures forall t :: t in m <==> t in c.types
    ensures forall t :: t in m ==> m[t] == c.name
  {
    map t | t in c.types :: c.name
  }

  /** Category `i` is the last one that lists `t`. */
  predicate LastListing(cats: seq<Category>, i: int, t: string) {
    && 0 <= i < |cats| && t in cats[i].types
    && forall j :: i < j < |cats| ==> t !in cats[j].types
  }

  /** `{t: category for category, types in categories.items() for t in
      types}`: exactly the listed types, each indexed under the last
      category that lists it. */
  function TypeToCategory(cats: seq<Category>): (m: map<string, string>)
    ensures forall t :: t in m <==> Listed(cats, t)
    ensures forall i, t :: LastListing(cats, i, t) ==> t in m && m[t] == cats[i].name
  {
    if |cats| == 0 then map[]
    else
      var init := cats[..|cats| - 1];
      var last := cats[|cats| - 1];
      var m0 := TypeToCategory(init);
      ListedSnoc(cats);
      LastListingSnoc(cats);
      m0 + Index(last)
  }

  lemma ListedSnoc(cats: seq<Category>)
    requires |cats| > 0
    ensures forall t :: Listed(cats, t) <==> Listed(cats[..|cats| - 1], t) || t in cats[|cats| - 1].types
  {
    var init := cats[..|cats| - 1];
    forall t ensures Listed(cats, t) <==> Listed(init, t) || t in cats[|cats| - 1].types {
      if Listed(init, t) {
        var i :| 0 <= i < |init| && t in init[i].types;
        assert t in cats[i].types;
      }
      if Listed(cats, t) && t !in cats[|cats| - 1].types {
        var i :| 0 <= i < |cats| && t in cats[i].types;
        assert t in init[i].types;
      }
    }
  }

  /** A last listing is in the final category, or is a last listing among
      the ones before it for a type the final category does not list. */
  lemma LastListingSnoc(cats: seq<Category>)
    requires |cats| > 0
    ensures forall i, t :: LastListing(cats, i, t) ==>
              i == |cats| - 1 || (t !in cats[|cats| - 1].types && LastListing(cats[..|cats| - 1], i, t))
  {
    var init := cats[..|cats| - 1];
    forall i, t | LastListing(cats, i, t) && i < |cats| - 1
      ensures t !in cats[|cats| - 1].types && LastListing(init, i, t)
    {
      assert forall j :: i < j < |init| ==> init[j] == cats[j];
    }
  }

  /** Every indexed type's category lists it. */
  lemma {:induction false} TypeInItsCategory(cats: seq<Category>, t: string)
    requires t in TypeToCategory(cats)
    ensures exists i :: 0 <= i < |cats| && cats[i].name == TypeToCategory(cats)[t] && t in cats[i].types
    decreases |cats|
  {
    var init := cats[..|cats| - 1];
    var last := cats[|cats| - 1];
    if t !in last.types {
      assert t in TypeToCategory(init);
      TypeInItsCategory(init, t);
      var i :| 0 <= i < |init| && init[i].name == TypeToCategory(init)[t] && t in init[i].types;
      assert cats[i] == init[i];
    }
  }

  /** The index covers exactly `ALL_BUSINESS_TYPES`. */
  lemma IndexCoversAllTypes(cats: seq<Category>)
    ensures forall t :: t in TypeToCategory(cats) <==> t in AllTypes(cats)
  {
  }

  /** `BUSINESS_TYPE_TO_CATEGORY`. */
  const BusinessTypeToCategory: map<string, string> := TypeToCategory(BusinessCategories)

  /** The categories after Finance, as written. */
  const AfterFinance: seq<Category> := [
    FoodAndDrink, GeographicalAreas, Government, HealthAndWellness, Housing, Lodging,
    NaturalFeatures, PlacesOfWorship, Services, Shopping, Sports, Transportation
  ]

  /** "accounting" is listed under Business and again under Finance, the
      later one, so it is indexed as Finance. */
  lemma AccountingIsFinance()
    ensures "accounting" in Business.types && "accounting" in Finance.types
    ensures "accounting" in BusinessTypeToCategory
    ensures BusinessTypeToCategory["accounting"] == "Finance"
  {
    var cats := BusinessCategories;
    assert cats[7..] == AfterFinance;
    forall j | 6 < j < |cats| ensures "accounting" !in cats[j].types {
      NotListedAfterFinance(j - 7);
    }
    assert LastListing(cats, 6, "accounting");
  }

  lemma NotListedAfterFinance(k: nat)
    requires k < |AfterFinance|
    ensures "accounting" !in AfterFinance[k].types
  {
    if k == 0 {
      HeadOmits("accounting", FoodAndDrink.types);
    } else if k == 1 {
      HeadOmits("accounting", GeographicalAreas.types);
    } else if k == 2 {
      HeadOmits("accounting", Government.types);
    } else if k == 3 {
      HeadOmits("accounting", HealthAndWellness.types);
    } else if k == 4 {
      HeadOmits("accounting", Housing.types);
    } else if k == 5 {
      HeadOmits("accounting", Lodging.types);
    } else if k == 6 {
      HeadOmits("accounting", NaturalFeatures.types);
    } else if k == 7 {
      HeadOmits("accounting", PlacesOfWorship.types);
    } else if k == 8 {
      HeadOmits("accounting", Services.types);
    } else if k == 9 {
      HeadOmits("accounting", Shopping.types);
    } else if k == 10 {
      HeadOmits("accounting", Sports.types);
    } else if k == 11 {
      HeadOmits("accounting", Transportation.types);
    }
  }

  /** A string is not among those that differ from it in length or first
      character. */
  lemma HeadOmits(t: string, xs: seq<string>)
    requires |t| > 0
    requires forall i :: 0 <= i < |xs| ==> |xs[i]| != |t| || xs[i][0] != t[0]
    ensures t !in xs
  {
  }
}
