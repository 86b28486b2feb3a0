/** The region tables: the cities of each Australian state, each city's
    centre, and how each city is cut into search tiles. Degrees are whole
    ten-thousandths of a degree, which every table entry is exactly. */
module Regions {
  import opened Wrappers

  /** A bounding box in ten-thousandths of a degree. */
  datatype BBox = BBox(latMin: int, latMax: int, lonMin: int, lonMax: int)

  /** One tiling: the tile edge and the area in kilometres, and an optional
      box that replaces the area. */
  datatype TileConfig = TileConfig(tileKm: int, widthKm: int, heightKm: int, bbox: Option<BBox>)

  /** A tile fits the area at least once and a box is not empty. */
  predicate WellFormed(c: TileConfig) {
    && 0 < c.tileKm <= c.widthKm
    && c.tileKm <= c.heightKm
    && (c.bbox.Some? ==> c.bbox.value.latMin < c.bbox.value.latMax && c.bbox.value.lonMin < c.bbox.value.lonMax)
  }

  /** A state's coordinate and tiling tables have exactly its cities. */
  ghost predicate SameCities(cities: seq<string>, coords: map<string, string>, tiles: map<string, TileConfig>) {
    && (forall c :: c in coords <==> c in cities)
    && (forall c :: c in tiles <==> c in cities)
  }

  ghost predicate AllWellFormed(tiles: map<string, TileConfig>) {
    forall c :: c in tiles ==> WellFormed(tiles[c])
  }

  /** `AU_REGIONS`: the cities of each state, as the dictionary's items in
      the order written. */
  const AuRegions: seq<(string, seq<string>)> := [
    ("New South Wales", NewSouthWalesCities),
    ("Victoria", VictoriaCities),
    ("Queensland", QueenslandCities),
    ("Western Australia", WesternAustraliaCities),
    ("South Australia", SouthAustraliaCities),
    ("Tasmania", TasmaniaCities),
    ("Australian Capital Territory", CapitalTerritoryCities),
    ("Northern Territory", NorthernTerritoryCities)
  ]

  const NewSouthWalesCities: seq<string> := [
    "Sydney", "Newcastle", "Wollongong", "Albury", "Maitland", "Wagga Wagga", "Port Macquarie",
    "Tamworth", "Coffs Harbour"
  ]
  const VictoriaCities: seq<string> := [
    "Melbourne", "Geelong", "Ballarat", "Bendigo", "Shepparton", "Mildura", "Warrnambool",
    "Traralgon"
  ]
  const QueenslandCities: seq<string> := [
    "Brisbane", "Gold Coast", "Cairns", "Townsville", "Toowoomba", "Rockhampton", "Mackay",
    "Bundaberg", "Hervey Bay"
  ]
  const WesternAustraliaCities: seq<string> := [
    "Perth", "Fremantle", "Bunbury", "Albany", "Geraldton", "Kalgoorlie", "Broome"
  ]
  const SouthAustraliaCities: seq<string> := [
    "Adelaide", "Mount Gambier", "Whyalla", "Gawler", "Port Lincoln", "Port Pirie",
    "Murray Bridge"
  ]
  const TasmaniaCities: seq<string> := ["Hobart", "Launceston", "Devonport", "Burnie"]
  const CapitalTerritoryCities: seq<string> := ["Canberra", "Belconnen", "Gungahlin", "Tuggeranong"]
  const NorthernTerritoryCities: seq<string> := [
    "Darwin", "Alice Springs", "Palmerston", "Katherine"
  ]

  /** `REGION_COORDINATES`: each city's centre as "lat,lon" text, written
      state by state. */
  const RegionCoordinates: map<string, string> :=
    NewSouthWalesCoordinates + VictoriaCoordinates + QueenslandCoordinates + WesternAustraliaCoordinates +
    SouthAustraliaCoordinates + TasmaniaCoordinates + CapitalTerritoryCoordinates + NorthernTerritoryCoordinates

  const NewSouthWalesCoordinates: map<string, string> := map[
    "Sydney" := "-33.8688,151.2093",
    "Newcastle" := "-32.9283,151.7817",
    "Wollongong" := "-34.4278,150.8931",
    "Albury" := "-36.0737,146.9135",
    "Maitland" := "-32.7335,151.5570",
    "Wagga Wagga" := "-35.1180,147.3598",
    "Port Macquarie" := "-31.4300,152.9080",
    "Tamworth" := "-31.0833,150.9333",
    "Coffs Harbour" := "-30.2963,153.1135"
  ]

  const VictoriaCoordinates: map<string, string> := map[
    "Melbourne" := "-37.8142,144.9631",
    "Geelong" := "-38.1499,144.3617",
    "Ballarat" := "-37.5622,143.8503",
    "Bendigo" := "-36.7570,144.2794",
    "Shepparton" := "-36.3805,145.3989",
    "Mildura" := "-34.2052,142.1367",
    "Warrnambool" := "-38.3818,142.4875",
    "Traralgon" := "-38.1950,146.5408"
  ]

  const QueenslandCoordinates: map<string, string> := map[
    "Brisbane" := "-27.4698,153.0251",
    "Gold Coast" := "-28.0167,153.4000",
    "Cairns" := "-16.9186,145.7781",
    "Townsville" := "-19.2589,146.8169",
    "Toowoomba" := "-27.5606,151.9539",
    "Rockhampton" := "-23.3783,150.5100",
    "Mackay" := "-21.1411,149.1860",
    "Bundaberg" := "-24.8667,152.3500",
    "Hervey Bay" := "-25.2880,152.8206"
  ]

  const WesternAustraliaCoordinates: map<string, string> := map[
    "Perth" := "-31.9505,115.8605",
    "Fremantle" := "-32.0569,115.7439",
    "Bunbury" := "-33.3271,115.6414",
    "Albany" := "-35.0269,117.8831",
    "Geraldton" := "-28.7742,114.6140",
    "Kalgoorlie" := "-30.7489,121.4655",
    "Broome" := "-17.9614,122.2359"
  ]

  const SouthAustraliaCoordinates: map<string, string> := map[
    "Adelaide" := "-34.9285,138.6007",
    "Mount Gambier" := "-37.8318,140.7790",
    "Whyalla" := "-33.0328,137.5610",
    "Gawler" := "-34.5967,138.7458",
    "Port Lincoln" := "-34.7208,135.8589",
    "Port Pirie" := "-33.1775,138.0086",
    "Murray Bridge" := "-35.1199,139.2734"
  ]

  const TasmaniaCoordinates: map<string, string> := map[
    "Hobart" := "-42.8821,147.3272",
    "Launceston" := "-41.4388,147.1347",
    "Devonport" := "-41.1762,146.3513",
    "Burnie" := "-41.0558,145.9036"
  ]

  const CapitalTerritoryCoordinates: map<string, string> := map[
    "Canberra" := "-35.2809,149.1300",
    "Belconnen" := "-35.2369,149.0686",
    "Gungahlin" := "-35.1850,149.1333",
    "Tuggeranong" := "-35.4154,149.0626"
  ]

  const NorthernTerritoryCoordinates: map<string, string> := map[
    "Darwin" := "-12.4634,130.8456",
    "Alice Springs" := "-23.6980,133.8807",
    "Palmerston" := "-12.4861,130.9830",
    "Katherine" := "-14.4656,132.2635"
  ]

  /** `REGION_TILE_CONFIGS`: the tiling of each city and the fallback,
      grouped here by state. */
  const RegionTileConfigs: map<string, TileConfig> := CityTiles + DefaultTiles

  /** The tilings of the cities, without the fallback. */
  const CityTiles: map<string, TileConfig> :=
    NewSouthWalesTiles + VictoriaTiles + QueenslandTiles + WesternAustraliaTiles +
    SouthAustraliaTiles + TasmaniaTiles + CapitalTerritoryTiles + NorthernTerritoryTiles

  /** The fallback tiling. */
  const DefaultTiles: map<string, TileConfig> := map["default" := TileConfig(5, 20, 20, None)]

  const NewSouthWalesTiles: map<string, TileConfig> := map[
    "Sydney" := TileConfig(5, 70, 90, Some(BBox(-341000, -336000, 1508000, 1513500))),
    "Newcastle" := TileConfig(5, 30, 30, Some(BBox(-329500, -327500, 1517000, 1519000))),
    "Wollongong" := TileConfig(5, 30, 30, Some(BBox(-346000, -343000, 1508000, 1510000))),
    "Albury" := TileConfig(5, 20, 20, Some(BBox(-361300, -360000, 1468500, 1470000))),
    "Maitland" := TileConfig(5, 20, 20, Some(BBox(-327800, -326800, 1515000, 1516500))),
    "Wagga Wagga" := TileConfig(5, 25, 25, Some(BBox(-352500, -350500, 1472200, 1474500))),
    "Port Macquarie" := TileConfig(5, 20, 20, Some(BBox(-314500, -312500, 1528000, 1530500))),
    "Tamworth" := TileConfig(5, 20, 20, Some(BBox(-311200, -310000, 1508300, 1509900))),
    "Coffs Harbour" := TileConfig(5, 20, 20, Some(BBox(-303200, -301800, 1530500, 1532000)))
  ]

  const VictoriaTiles: map<string, TileConfig> := map[
    "Melbourne" := TileConfig(5, 70, 90, Some(BBox(-383000, -375500, 1446500, 1454000))),
    "Geelong" := TileConfig(5, 30, 30, Some(BBox(-382000, -379000, 1442500, 1444500))),
    "Ballarat" := TileConfig(5, 25, 25, Some(BBox(-376000, -375000, 1438000, 1439500))),
    "Bendigo" := TileConfig(5, 25, 25, Some(BBox(-368200, -367000, 1442300, 1443500))),
    "Shepparton" := TileConfig(5, 25, 25, Some(BBox(-364200, -363000, 1453800, 1455000))),
    "Mildura" := TileConfig(5, 25, 25, Some(BBox(-343500, -341500, 1420000, 1423000))),
    "Warrnambool" := TileConfig(5, 25, 20, Some(BBox(-384600, -383300, 1424200, 1426700))),
    "Traralgon" := TileConfig(5, 20, 15, Some(BBox(-382400, -381200, 1464700, 1466100)))
  ]

  const QueenslandTiles: map<string, TileConfig> := map[
    "Brisbane" := TileConfig(5, 60, 80, Some(BBox(-277000, -273000, 1529000, 1532000))),
    "Gold Coast" := TileConfig(5, 40, 50, Some(BBox(-281000, -278000, 1533000, 1536000))),
    "Cairns" := TileConfig(5, 30, 30, Some(BBox(-170500, -168500, 1456000, 1459000))),
    "Townsville" := TileConfig(5, 30, 30, Some(BBox(-193500, -192000, 1467500, 1469000))),
    "Toowoomba" := TileConfig(5, 25, 25, Some(BBox(-276200, -274800, 1518500, 1520300))),
    "Rockhampton" := TileConfig(5, 25, 25, Some(BBox(-234200, -233000, 1504800, 1506000))),
    "Mackay" := TileConfig(5, 25, 25, Some(BBox(-212000, -210500, 1491500, 1493000))),
    "Bundaberg" := TileConfig(5, 20, 20, Some(BBox(-249500, -247500, 1522800, 1525500))),
    "Hervey Bay" := TileConfig(5, 20, 20, Some(BBox(-254000, -252000, 1527500, 1530000)))
  ]

  const WesternAustraliaTiles: map<string, TileConfig> := map[
    "Perth" := TileConfig(5, 60, 80, Some(BBox(-322000, -317000, 1157000, 1161000))),
    "Fremantle" := TileConfig(5, 20, 20, Some(BBox(-321000, -319000, 1156800, 1158800))),
    "Bunbury" := TileConfig(5, 20, 30, Some(BBox(-334400, -332500, 1155700, 1157200))),
    "Albany" := TileConfig(5, 20, 20, Some(BBox(-350500, -348500, 1178200, 1180500))),
    "Geraldton" := TileConfig(5, 20, 20, Some(BBox(-288500, -286500, 1145500, 1147500))),
    "Kalgoorlie" := TileConfig(5, 20, 20, Some(BBox(-308200, -306500, 1214000, 1216000))),
    "Broome" := TileConfig(5, 20, 20, Some(BBox(-179900, -178500, 1221500, 1223000)))
  ]

  const SouthAustraliaTiles: map<string, TileConfig> := map[
    "Adelaide" := TileConfig(5, 60, 80, Some(BBox(-351000, -347000, 1384000, 1387500))),
    "Mount Gambier" := TileConfig(5, 20, 20, Some(BBox(-378500, -376000, 1407500, 1410000))),
    "Whyalla" := TileConfig(5, 20, 20, Some(BBox(-330700, -329000, 1375000, 1377500))),
    "Gawler" := TileConfig(5, 20, 20, Some(BBox(-346300, -345200, 1387000, 1388500))),
    "Port Lincoln" := TileConfig(5, 20, 20, Some(BBox(-347500, -345500, 1358500, 1361000))),
    "Port Pirie" := TileConfig(5, 20, 20, Some(BBox(-332500, -330500, 1380500, 1383000))),
    "Murray Bridge" := TileConfig(5, 20, 20, Some(BBox(-352500, -350500, 1392000, 1394500)))
  ]

  const TasmaniaTiles: map<string, TileConfig> := map[
    "Hobart" := TileConfig(5, 30, 30, Some(BBox(-431000, -427500, 1471000, 1475000))),
    "Launceston" := TileConfig(5, 25, 25, Some(BBox(-414800, -413500, 1470500, 1472000))),
    "Devonport" := TileConfig(5, 20, 20, Some(BBox(-411800, -410000, 1463500, 1466000))),
    "Burnie" := TileConfig(5, 20, 20, Some(BBox(-412000, -410000, 1458500, 1461000)))
  ]

  const CapitalTerritoryTiles: map<string, TileConfig> := map[
    "Canberra" := TileConfig(5, 30, 35, Some(BBox(-354500, -351000, 1489000, 1493000))),
    "Belconnen" := TileConfig(5, 20, 20, Some(BBox(-353000, -352000, 1490200, 1491000))),
    "Gungahlin" := TileConfig(5, 20, 20, Some(BBox(-352200, -351400, 1491000, 1491800))),
    "Tuggeranong" := TileConfig(5, 20, 20, Some(BBox(-354500, -353000, 1490200, 1491500)))
  ]

  const NorthernTerritoryTiles: map<string, TileConfig> := map[
    "Darwin" := TileConfig(5, 25, 25, Some(BBox(-126000, -123000, 1307500, 1311000))),
    "Alice Springs" := TileConfig(5, 20, 20, Some(BBox(-237500, -236000, 1338000, 1339500))),
    "Palmerston" := TileConfig(5, 20, 20, Some(BBox(-125200, -124000, 1309500, 1311200))),
    "Katherine" := TileConfig(5, 20, 20, Some(BBox(-145500, -143500, 1322000, 1324500)))
  ]

  /** The tables of each state agree, and its tilings are well formed. */
  lemma NewSouthWalesAgrees()
    ensures SameCities(NewSouthWalesCities, NewSouthWalesCoordinates, NewSouthWalesTiles)
    ensures AllWellFormed(NewSouthWalesTiles)
  {
  }

  lemma VictoriaAgrees()
    ensures SameCities(VictoriaCities, VictoriaCoordinates, VictoriaTiles)
    ensures AllWellFormed(VictoriaTiles)
  {
  }

  lemma QueenslandAgrees()
    ensures SameCities(QueenslandCities, QueenslandCoordinates, QueenslandTiles)
    ensures AllWellFormed(QueenslandTiles)
  {
  }

  lemma WesternAustraliaAgrees()
    ensures SameCities(WesternAustraliaCities, WesternAustraliaCoordinates, WesternAustraliaTiles)
    ensures AllWellFormed(WesternAustraliaTiles)
  {
  }

  lemma SouthAustraliaAgrees()
    ensures SameCities(SouthAustraliaCities, SouthAustraliaCoordinates, SouthAustraliaTiles)
    ensures AllWellFormed(SouthAustraliaTiles)
  {
  }

  lemma TasmaniaAgrees()
    ensures SameCities(TasmaniaCities, TasmaniaCoordinates, TasmaniaTiles)
    ensures AllWellFormed(TasmaniaTiles)
  {
  }

  lemma CapitalTerritoryAgrees()
    ensures SameCities(CapitalTerritoryCities, CapitalTerritoryCoordinates, CapitalTerritoryTiles)
    ensures AllWellFormed(CapitalTerritoryTiles)
  {
  }

  lemma NorthernTerritoryAgrees()
    ensures SameCities(NorthernTerritoryCities, NorthernTerritoryCoordinates, NorthernTerritoryTiles)
    ensures AllWellFormed(NorthernTerritoryTiles)
  {
  }

  /** The cities of each state have a centre and a tiling. */
  lemma NewSouthWalesCovered(c: string)
    requires c in NewSouthWalesCities
    ensures c in RegionCoordinates && c in CityTiles
  {
    NewSouthWalesAgrees();
  }

  lemma VictoriaCovered(c: string)
    requires c in VictoriaCities
    ensures c in RegionCoordinates && c in CityTiles
  {
    VictoriaAgrees();
  }

  lemma QueenslandCovered(c: string)
    requires c in QueenslandCities
    ensures c in RegionCoordinates && c in CityTiles
  {
    QueenslandAgrees();
  }

  lemma WesternAustraliaCovered(c: string)
    requires c in WesternAustraliaCities
    ensures c in RegionCoordinates && c in CityTiles
  {
    WesternAustraliaAgrees();
  }

  lemma SouthAustraliaCovered(c: string)
    requires c in SouthAustraliaCities
    ensures c in RegionCoordinates && c in CityTiles
  {
    SouthAustraliaAgrees();
  }

  lemma TasmaniaCovered(c: string)
    requires c in TasmaniaCities
    ensures c in RegionCoordinates && c in CityTiles
  {
    TasmaniaAgrees();
  }

  lemma CapitalTerritoryCovered(c: string)
    requires c in CapitalTerritoryCities
    ensures c in RegionCoordinates && c in CityTiles
  {
    CapitalTerritoryAgrees();
  }

  lemma NorthernTerritoryCovered(c: string)
    requires c in NorthernTerritoryCities
    ensures c in RegionCoordinates && c in CityTiles
  {
    NorthernTerritoryAgrees();
  }

  /** Every city listed under a state has a centre and a tiling, so the
      crawl's unknown-region error cannot come from a listed city. */
  lemma CityHasCoordinates(i: nat, c: string)
    requires i < |AuRegions| && c in AuRegions[i].1
    ensures c in RegionCoordinates && c in CityTiles
  {
    if i == 0 {
      NewSouthWalesCovered(c);
    } else if i == 1 {
      VictoriaCovered(c);
    } else if i == 2 {
      QueenslandCovered(c);
    } else if i == 3 {
      WesternAustraliaCovered(c);
    } else if i == 4 {
      SouthAustraliaCovered(c);
    } else if i == 5 {
      TasmaniaCovered(c);
    } else if i == 6 {
      CapitalTerritoryCovered(c);
    } else {
      NorthernTerritoryCovered(c);
    }
  }

  /** `c` is listed under some state. */
  ghost predicate Listed(c: string) {
    exists i :: 0 <= i < |AuRegions| && c in AuRegions[i].1
  }

  /** The centres and tilings of each state are of listed cities. */
  lemma NewSouthWalesListed()
    ensures forall c :: c in NewSouthWalesCoordinates ==> Listed(c)
  {
    NewSouthWalesAgrees();
    assert AuRegions[0].1 == NewSouthWalesCities;
  }

  lemma NewSouthWalesTilesListed()
    ensures forall c :: c in NewSouthWalesTiles ==> Listed(c)
  {
    NewSouthWalesAgrees();
    assert AuRegions[0].1 == NewSouthWalesCities;
  }

  lemma VictoriaListed()
    ensures forall c :: c in VictoriaCoordinates ==> Listed(c)
  {
    VictoriaAgrees();
    assert AuRegions[1].1 == VictoriaCities;
  }

  lemma VictoriaTilesListed()
    ensures forall c :: c in VictoriaTiles ==> Listed(c)
  {
    VictoriaAgrees();
    assert AuRegions[1].1 == VictoriaCities;
  }

  lemma QueenslandListed()
    ensures forall c :: c in QueenslandCoordinates ==> Listed(c)
  {
    QueenslandAgrees();
    assert AuRegions[2].1 == QueenslandCities;
  }

  lemma QueenslandTilesListed()
    ensures forall c :: c in QueenslandTiles ==> Listed(c)
  {
    QueenslandAgrees();
    assert AuRegions[2].1 == QueenslandCities;
  }

  lemma WesternAustraliaListed()
    ensures forall c :: c in WesternAustraliaCoordinates ==> Listed(c)
  {
    WesternAustraliaAgrees();
    assert AuRegions[3].1 == WesternAustraliaCities;
  }

  lemma WesternAustraliaTilesListed()
    ensures forall c :: c in WesternAustraliaTiles ==> Listed(c)
  {
    WesternAustraliaAgrees();
    assert AuRegions[3].1 == WesternAustraliaCities;
  }

  lemma SouthAustraliaListed()
    ensures forall c :: c in SouthAustraliaCoordinates ==> Listed(c)
  {
    SouthAustraliaAgrees();
    assert AuRegions[4].1 == SouthAustraliaCities;
  }

  lemma SouthAustraliaTilesListed()
    ensures forall c :: c in SouthAustraliaTiles ==> Listed(c)
  {
    SouthAustraliaAgrees();
    assert AuRegions[4].1 == SouthAustraliaCities;
  }

  lemma TasmaniaListed()
    ensures forall c :: c in TasmaniaCoordinates ==> Listed(c)
  {
    TasmaniaAgrees();
    assert AuRegions[5].1 == TasmaniaCities;
  }

  lemma TasmaniaTilesListed()
    ensures forall c :: c in TasmaniaTiles ==> Listed(c)
  {
    TasmaniaAgrees();
    assert AuRegions[5].1 == TasmaniaCities;
  }

  lemma CapitalTerritoryListed()
    ensures forall c :: c in CapitalTerritoryCoordinates ==> Listed(c)
  {
    CapitalTerritoryAgrees();
    assert AuRegions[6].1 == CapitalTerritoryCities;
  }

  lemma CapitalTerritoryTilesListed()
    ensures forall c :: c in CapitalTerritoryTiles ==> Listed(c)
  {
    CapitalTerritoryAgrees();
    assert AuRegions[6].1 == CapitalTerritoryCities;
  }

  lemma NorthernTerritoryListed()
    ensures forall c :: c in NorthernTerritoryCoordinates ==> Listed(c)
  {
    NorthernTerritoryAgrees();
    assert AuRegions[7].1 == NorthernTerritoryCities;
  }

  lemma NorthernTerritoryTilesListed()
    ensures forall c :: c in NorthernTerritoryTiles ==> Listed(c)
  {
    NorthernTerritoryAgrees();
    assert AuRegions[7].1 == NorthernTerritoryCities;
  }

  lemma MergeListed(a: map<string, string>, b: map<string, string>)
    requires forall c :: c in a ==> Listed(c)
    requires forall c :: c in b ==> Listed(c)
    ensures forall c :: c in a + b ==> Listed(c)
  {
  }

  lemma MergeListedTiles(a: map<string, TileConfig>, b: map<string, TileConfig>)
    requires forall c :: c in a ==> Listed(c)
    requires forall c :: c in b ==> Listed(c)
    ensures forall c :: c in a + b ==> Listed(c)
  {
  }

  lemma MergeWellFormed(a: map<string, TileConfig>, b: map<string, TileConfig>)
    requires AllWellFormed(a) && AllWellFormed(b)
    ensures AllWellFormed(a + b)
  {
  }

  /** Every city with a centre is listed under a state. */
  lemma CoordinatesAreListed()
    ensures forall c :: c in RegionCoordinates ==> Listed(c)
  {
    FirstStatesCoordinatesListed();
    SouthAustraliaListed();
    TasmaniaListed();
    CapitalTerritoryListed();
    NorthernTerritoryListed();
    MergeListed(NewSouthWalesCoordinates + VictoriaCoordinates + QueenslandCoordinates + WesternAustraliaCoordinates, SouthAustraliaCoordinates);
    MergeListed(NewSouthWalesCoordinates + VictoriaCoordinates + QueenslandCoordinates + WesternAustraliaCoordinates + SouthAustraliaCoordinates, TasmaniaCoordinates);
    MergeListed(NewSouthWalesCoordinates + VictoriaCoordinates + QueenslandCoordinates + WesternAustraliaCoordinates + SouthAustraliaCoordinates + TasmaniaCoordinates, CapitalTerritoryCoordinates);
    MergeListed(NewSouthWalesCoordinates + VictoriaCoordinates + QueenslandCoordinates + WesternAustraliaCoordinates + SouthAustraliaCoordinates + TasmaniaCoordinates + CapitalTerritoryCoordinates, NorthernTerritoryCoordinates);
  }

  lemma FirstStatesCoordinatesListed()
    ensures forall c :: c in NewSouthWalesCoordinates + VictoriaCoordinates + QueenslandCoordinates + WesternAustraliaCoordinates ==> Listed(c)
  {
    NewSouthWalesListed();
    VictoriaListed();
    QueenslandListed();
    WesternAustraliaListed();
    MergeListed(NewSouthWalesCoordinates, VictoriaCoordinates);
    MergeListed(NewSouthWalesCoordinates + VictoriaCoordinates, QueenslandCoordinates);
    MergeListed(NewSouthWalesCoordinates + VictoriaCoordinates + QueenslandCoordinates, WesternAustraliaCoordinates);
  }

  /** Every city with a tiling is listed under a state. */
  lemma TilesAreListed()
    ensures forall c :: c in CityTiles ==> Listed(c)
  {
    FirstStatesTilesListed();
    SouthAustraliaTilesListed();
    TasmaniaTilesListed();
    CapitalTerritoryTilesListed();
    NorthernTerritoryTilesListed();
    MergeListedTiles(NewSouthWalesTiles + VictoriaTiles + QueenslandTiles + WesternAustraliaTiles, SouthAustraliaTiles);
    MergeListedTiles(NewSouthWalesTiles + VictoriaTiles + QueenslandTiles + WesternAustraliaTiles + SouthAustraliaTiles, TasmaniaTiles);
    MergeListedTiles(NewSouthWalesTiles + VictoriaTiles + QueenslandTiles + WesternAustraliaTiles + SouthAustraliaTiles + TasmaniaTiles, CapitalTerritoryTiles);
    MergeListedTiles(NewSouthWalesTiles + VictoriaTiles + QueenslandTiles + WesternAustraliaTiles + SouthAustraliaTiles + TasmaniaTiles + CapitalTerritoryTiles, NorthernTerritoryTiles);
  }

  lemma FirstStatesTilesListed()
    ensures forall c :: c in NewSouthWalesTiles + VictoriaTiles + QueenslandTiles + WesternAustraliaTiles ==> Listed(c)
  {
    NewSouthWalesTilesListed();
    VictoriaTilesListed();
    QueenslandTilesListed();
    WesternAustraliaTilesListed();
    MergeListedTiles(NewSouthWalesTiles, VictoriaTiles);
    MergeListedTiles(NewSouthWalesTiles + VictoriaTiles, QueenslandTiles);
    MergeListedTiles(NewSouthWalesTiles + VictoriaTiles + QueenslandTiles, WesternAustraliaTiles);
  }

  /** Every tiling is well formed. */
  lemma TileConfigsWellFormed()
    ensures AllWellFormed(RegionTileConfigs)
  {
    NewSouthWalesAgrees();
    VictoriaAgrees();
    QueenslandAgrees();
    WesternAustraliaAgrees();
    SouthAustraliaAgrees();
    TasmaniaAgrees();
    CapitalTerritoryAgrees();
    NorthernTerritoryAgrees();
    MergeWellFormed(NewSouthWalesTiles, VictoriaTiles);
    MergeWellFormed(NewSouthWalesTiles + VictoriaTiles, QueenslandTiles);
    MergeWellFormed(NewSouthWalesTiles + VictoriaTiles + QueenslandTiles, WesternAustraliaTiles);
    MergeWellFormed(NewSouthWalesTiles + VictoriaTiles + QueenslandTiles + WesternAustraliaTiles, SouthAustraliaTiles);
    MergeWellFormed(NewSouthWalesTiles + VictoriaTiles + QueenslandTiles + WesternAustraliaTiles + SouthAustraliaTiles, TasmaniaTiles);
    MergeWellFormed(NewSouthWalesTiles + VictoriaTiles + QueenslandTiles + WesternAustraliaTiles + SouthAustraliaTiles + TasmaniaTiles, CapitalTerritoryTiles);
    MergeWellFormed(NewSouthWalesTiles + VictoriaTiles + QueenslandTiles + WesternAustraliaTiles + SouthAustraliaTiles + TasmaniaTiles + CapitalTerritoryTiles, NorthernTerritoryTiles);
    MergeWellFormed(CityTiles, DefaultTiles);
  }

  lemma CoordinateListed(c: string)
    requires c in RegionCoordinates
    ensures Listed(c)
  {
    CoordinatesAreListed();
  }

  lemma TileListed(c: string)
    requires c in CityTiles
    ensures Listed(c)
  {
    TilesAreListed();
  }

  /** A listed city has a centre and a tiling. */
  lemma ListedCovered(c: string)
    requires Listed(c)
    ensures c in RegionCoordinates && c in CityTiles
  {
    var i :| 0 <= i < |AuRegions| && c in AuRegions[i].1;
    CityHasCoordinates(i, c);
  }

  /** A city with a centre has a tiling. */
  lemma CoordinatesHaveTiles(c: string)
    requires c in RegionCoordinates
    ensures c in CityTiles
  {
    CoordinateListed(c);
    ListedCovered(c);
  }

  /** A city with a tiling has a centre. */
  lemma TilesHaveCoordinates(c: string)
    requires c in CityTiles
    ensures c in RegionCoordinates
  {
    TileListed(c);
    ListedCovered(c);
  }

  /** The cities with a tiling are exactly the cities with a centre;
      `RegionTileConfigs` adds only the fallback to them. */
  lemma TileConfigsCoverCities(c: string)
    ensures c in CityTiles <==> c in RegionCoordinates
  {
    if c in RegionCoordinates {
      CoordinatesHaveTiles(c);
    }
    if c in CityTiles {
      TilesHaveCoordinates(c);
    }
  }
}
