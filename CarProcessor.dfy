/**
  The car table: image URLs for the GT+ site built from the maker and model
  names, and the loading of already-parsed maker and car rows into the
  maker and car tables.
 */
module CarProcessor {
  import opened Text

  const UrlPrefix := "https://gtplus.app/_next/image?url=%2Fimages%2Fcars%2F"
  const UrlSuffix := ".jpg&w=1920&q=75"
  const UnknownMaker := "Unknown"

  /** The lowered model alone when it already names the maker, else `maker-model`. */
  function UrlBase(maker: string, model: string): string
  {
    var modelLower := ToLower(model);
    var makerLower := ToLower(maker);
    if Contains(modelLower, makerLower) then modelLower else makerLower + "-" + modelLower
  }

  /**
    The slug: spaces become hyphens, single and double quotes are dropped,
    and one left-to-right pass turns each "--" into "-".
   */
  function Slug(maker: string, model: string): string
  {
    Replace(Replace(Replace(Replace(UrlBase(maker, model), " ", "-"), "'", ""), "\"", ""), "--", "-")
  }

  /** The slug has no spaces, no quotes and no capital letters. */
  lemma SlugIsClean(maker: string, model: string)
    ensures var s := Slug(maker, model);
      ' ' !in s && '\'' !in s && '"' !in s && NoUpper(s)
  {
    var base := UrlBase(maker, model);
    var s1 := Replace(base, " ", "-");
    var s2 := Replace(s1, "'", "");
    var s3 := Replace(s2, "\"", "");
    var s4 := Replace(s3, "--", "-");
    SlugHasNoSpacesOrQuotes(base, s1, s2, s3, s4);
    SlugHasNoCapitals(base, s1, s2, s3, s4);
  }

  lemma SlugHasNoSpacesOrQuotes(base: string, s1: string, s2: string, s3: string, s4: string)
    requires s1 == Replace(base, " ", "-") && s2 == Replace(s1, "'", "")
    requires s3 == Replace(s2, "\"", "") && s4 == Replace(s3, "--", "-")
    ensures ' ' !in s4 && '\'' !in s4 && '"' !in s4
  {
    ReplaceRemovesChar(base, ' ', "-");
    ReplaceKeepsAlphabet(s1, "'", "", ' ');
    ReplaceRemovesChar(s1, '\'', "");
    ReplaceKeepsAlphabet(s2, "\"", "", ' ');
    ReplaceKeepsAlphabet(s2, "\"", "", '\'');
    ReplaceRemovesChar(s2, '"', "");
    ReplaceKeepsAlphabet(s3, "--", "-", ' ');
    ReplaceKeepsAlphabet(s3, "--", "-", '\'');
    ReplaceKeepsAlphabet(s3, "--", "-", '"');
  }

  lemma SlugHasNoCapitals(base: string, s1: string, s2: string, s3: string, s4: string)
    requires NoUpper(base)
    requires s1 == Replace(base, " ", "-") && s2 == Replace(s1, "'", "")
    requires s3 == Replace(s2, "\"", "") && s4 == Replace(s3, "--", "-")
    ensures NoUpper(s4)
  {
    ReplaceKeepsNoUpper(base, " ", "-");
    ReplaceKeepsNoUpper(s1, "'", "");
    ReplaceKeepsNoUpper(s2, "\"", "");
    ReplaceKeepsNoUpper(s3, "--", "-");
  }

  /** `_generate_image_url`: the fixed prefix, the slug and the fixed suffix. */
  function GenerateImageUrl(maker: string, model: string): string
  {
    UrlPrefix + Slug(maker, model) + UrlSuffix
  }

  /** The URL is the prefix, then the slug of the two names, then the suffix, so the slug can be read back. */
  lemma ImageUrlShape(maker: string, model: string)
    ensures var url := GenerateImageUrl(maker, model);
      StartsWith(url, UrlPrefix) &&
      |url| >= |UrlPrefix| + |UrlSuffix| && url[|url| - |UrlSuffix|..] == UrlSuffix &&
      url[|UrlPrefix|..|url| - |UrlSuffix|] == Slug(maker, model)
  {
    var url := GenerateImageUrl(maker, model);
    assert url[..|UrlPrefix|] == UrlPrefix;
    assert url[|UrlPrefix|..|url| - |UrlSuffix|] == Slug(maker, model);
  }

  /** Lowering is idempotent on ASCII letters. */
  lemma ToLowerTwice(s: string)
    ensures ToLower(ToLower(s)) == ToLower(s)
  {
  }

  /** The URL does not depend on the letter case of either name. */
  lemma UrlIgnoresCase(maker: string, model: string)
    ensures GenerateImageUrl(ToLower(maker), ToLower(model)) == GenerateImageUrl(maker, model)
  {
    ToLowerTwice(maker);
    ToLowerTwice(model);
  }

  /** A single pass of the "--" replacement leaves "--" behind where three hyphens ran together. */
  lemma TripleHyphenLeavesDouble()
    ensures Replace("a---b", "--", "-") == "a--b"
  {
    assert "a---b"[..2][0] == 'a';
    assert "a---b"[1..] == "---b";
    assert "---b"[..2] == "--";
    assert "---b"[2..] == "-b";
    assert "-b"[..2][1] == 'b';
    assert "-b"[1..] == "b";
  }

  // ---------------------------------------------------------------- loading the tables

  /** A row of the maker file, already converted. */
  datatype MakerRow = MakerRow(id: int, name: string)

  /** A row of the car file, already converted. */
  datatype CarRow = CarRow(id: int, maker: int, shortName: string)

  datatype CarInfo = CarInfo(carId: int, name: string, makerId: int, makerName: string, imageUrl: string)

  /** `makers.get(id, "Unknown")`. */
  function MakerName(makers: map<int, string>, id: int): (r: string)
    ensures id in makers ==> r == makers[id]
    ensures id !in makers ==> r == UnknownMaker
  {
    if id in makers then makers[id] else UnknownMaker
  }

  /** The table entry one car row produces. */
  function CarOf(makers: map<int, string>, row: CarRow): (c: CarInfo)
    ensures c.carId == row.id && c.name == row.shortName && c.makerId == row.maker
    ensures c.makerName == MakerName(makers, row.maker)
    ensures c.imageUrl == GenerateImageUrl(c.makerName, row.shortName)
  {
    var makerName := MakerName(makers, row.maker);
    CarInfo(row.id, row.shortName, row.maker, makerName, GenerateImageUrl(makerName, row.shortName))
  }

  /** The maker table after storing each row in turn. */
  function LoadMakers(makers: map<int, string>, rows: seq<MakerRow>): map<int, string>
  {
    if |rows| == 0 then makers
    else LoadMakers(makers, rows[..|rows| - 1])[rows[|rows| - 1].id := rows[|rows| - 1].name]
  }

  /** The table entries the car rows produce, in row order. */
  function CarsOf(makers: map<int, string>, rows: seq<CarRow>): (cs: seq<CarInfo>)
    ensures |cs| == |rows|
    ensures forall i :: 0 <= i < |rows| ==> cs[i] == CarOf(makers, rows[i])
  {
    seq(|rows|, i requires 0 <= i < |rows| => CarOf(makers, rows[i]))
  }

  /** The car table after storing each entry in turn under its car id. */
  function StoreCars(cars: map<int, CarInfo>, entries: seq<CarInfo>): map<int, CarInfo>
  {
    if |entries| == 0 then cars
    else StoreCars(cars, entries[..|entries| - 1])[entries[|entries| - 1].carId := entries[|entries| - 1]]
  }

  /** The car table after storing each row in turn. */
  function LoadCars(cars: map<int, CarInfo>, makers: map<int, string>, rows: seq<CarRow>): map<int, CarInfo>
  {
    StoreCars(cars, CarsOf(makers, rows))
  }

  /** The entries of a prefix of the rows are the prefix of the entries. */
  lemma CarsOfPrefix(makers: map<int, string>, rows: seq<CarRow>, j: nat)
    requires j <= |rows|
    ensures CarsOf(makers, rows)[..j] == CarsOf(makers, rows[..j])
  {
  }

  /** Loading one more row stores its entry over the table loaded so far. */
  lemma LoadCarsStep(cars: map<int, CarInfo>, makers: map<int, string>, rows: seq<CarRow>, j: nat)
    requires j < |rows|
    ensures LoadCars(cars, makers, rows[..j + 1]) == LoadCars(cars, makers, rows[..j])[rows[j].id := CarOf(makers, rows[j])]
  {
    var es := CarsOf(makers, rows[..j + 1]);
    CarsOfPrefix(makers, rows[..j + 1], j);
    assert rows[..j + 1][..j] == rows[..j];
    assert es[j] == CarOf(makers, rows[j]);
  }

  /** An id is stored afterwards iff it was before or some entry has it. */
  lemma {:induction false} StoredCarIds(cars: map<int, CarInfo>, entries: seq<CarInfo>, k: int)
    ensures k in StoreCars(cars, entries) <==> k in cars || exists i :: 0 <= i < |entries| && entries[i].carId == k
    decreases |entries|
  {
    if |entries| > 0 {
      var init := entries[..|entries| - 1];
      StoredCarIds(cars, init, k);
      if exists i :: 0 <= i < |init| && init[i].carId == k {
        var i :| 0 <= i < |init| && init[i].carId == k;
        assert entries[i].carId == k;
      }
      if exists i :: 0 <= i < |entries| && entries[i].carId == k {
        var i :| 0 <= i < |entries| && entries[i].carId == k;
        if i < |init| {
          assert init[i].carId == k;
        }
      }
    }
  }

  /** The last entry with an id is the one stored under it. */
  lemma {:induction false} LastEntryWins(cars: map<int, CarInfo>, entries: seq<CarInfo>, i: nat)
    requires i < |entries|
    requires forall j :: i < j < |entries| ==> entries[j].carId != entries[i].carId
    ensures entries[i].carId in StoreCars(cars, entries)
    ensures StoreCars(cars, entries)[entries[i].carId] == entries[i]
    decreases |entries|
  {
    if i < |entries| - 1 {
      var init := entries[..|entries| - 1];
      assert init[i] == entries[i];
      LastEntryWins(cars, init, i);
    }
  }

  /** An id no entry has keeps its old entry. */
  lemma {:induction false} UnstoredCarKept(cars: map<int, CarInfo>, entries: seq<CarInfo>, k: int)
    requires k in cars && forall i :: 0 <= i < |entries| ==> entries[i].carId != k
    ensures k in StoreCars(cars, entries) && StoreCars(cars, entries)[k] == cars[k]
    decreases |entries|
  {
    if |entries| > 0 {
      UnstoredCarKept(cars, entries[..|entries| - 1], k);
    }
  }

  /** Loading keys the table by car id: an id is present afterwards iff it was before or some row has it. */
  lemma LoadedCarIds(cars: map<int, CarInfo>, makers: map<int, string>, rows: seq<CarRow>, k: int)
    ensures k in LoadCars(cars, makers, rows) <==> k in cars || exists i :: 0 <= i < |rows| && rows[i].id == k
  {
    var es := CarsOf(makers, rows);
    StoredCarIds(cars, es, k);
    if exists i :: 0 <= i < |rows| && rows[i].id == k {
      var i :| 0 <= i < |rows| && rows[i].id == k;
      assert es[i].carId == k;
    }
  }

  /** A later row with the same car id replaces an earlier one: the last row with the id wins. */
  lemma LastCarRowWins(cars: map<int, CarInfo>, makers: map<int, string>, rows: seq<CarRow>, i: nat)
    requires i < |rows|
    requires forall j :: i < j < |rows| ==> rows[j].id != rows[i].id
    ensures rows[i].id in LoadCars(cars, makers, rows)
    ensures LoadCars(cars, makers, rows)[rows[i].id] == CarOf(makers, rows[i])
  {
    var es := CarsOf(makers, rows);
    assert forall j :: i < j < |es| ==> es[j].carId == rows[j].id;
    LastEntryWins(cars, es, i);
  }

  /** An entry no row names is kept as it was. */
  lemma UnnamedCarKept(cars: map<int, CarInfo>, makers: map<int, string>, rows: seq<CarRow>, k: int)
    requires k in cars && forall i :: 0 <= i < |rows| ==> rows[i].id != k
    ensures k in LoadCars(cars, makers, rows) && LoadCars(cars, makers, rows)[k] == cars[k]
  {
    var es := CarsOf(makers, rows);
    assert forall i :: 0 <= i < |es| ==> es[i].carId == rows[i].id;
    UnstoredCarKept(cars, es, k);
  }

  /** Loading makers keys the table by maker id in the same way. */
  lemma {:induction false} LastMakerRowWins(makers: map<int, string>, rows: seq<MakerRow>, k: int)
    ensures var r := LoadMakers(makers, rows);
      (k in r <==> k in makers || exists i :: 0 <= i < |rows| && rows[i].id == k) &&
      (forall i :: 0 <= i < |rows| && rows[i].id == k && (forall j :: i < j < |rows| ==> rows[j].id != k) ==>
         r[k] == rows[i].name) &&
      ((forall i :: 0 <= i < |rows| ==> rows[i].id != k) && k in makers ==> r[k] == makers[k])
    decreases |rows|
  {
    if |rows| > 0 {
      var init := rows[..|rows| - 1];
      LastMakerRowWins(makers, init, k);
      assert forall i :: 0 <= i < |init| ==> init[i] == rows[i];
    }
  }

  class CarDataProcessor {
    var cars: map<int, CarInfo>
    var makers: map<int, string>

    /** Both tables start empty and are filled from the given rows. */
    constructor (makerRows: seq<MakerRow>, carRows: seq<CarRow>)
      ensures makers == LoadMakers(map[], makerRows)
      ensures cars == LoadCars(map[], makers, carRows)
    {
      cars := map[];
      makers := map[];
      new;
      LoadData(makerRows, carRows);
    }

    /** `_load_data`: the maker rows first, then the car rows, which see the loaded makers. */
    method LoadData(makerRows: seq<MakerRow>, carRows: seq<CarRow>)
      modifies this
      ensures makers == LoadMakers(old(makers), makerRows)
      ensures cars == LoadCars(old(cars), makers, carRows)
    {
      LoadMakerRows(makerRows);
      LoadCarRows(carRows);
    }

    /** The maker loop of `_load_data`. */
    method LoadMakerRows(makerRows: seq<MakerRow>)
      modifies this`makers
      ensures makers == LoadMakers(old(makers), makerRows)
    {
      var i := 0;
      while i < |makerRows|
        invariant 0 <= i <= |makerRows|
        invariant makers == LoadMakers(old(makers), makerRows[..i])
      {
        assert makerRows[..i + 1][..i] == makerRows[..i];
        makers := makers[makerRows[i].id := makerRows[i].name];
        i := i + 1;
      }
      assert makerRows[..|makerRows|] == makerRows;
    }

    /** The car loop of `_load_data`. */
    method LoadCarRows(carRows: seq<CarRow>)
      modifies this`cars
      ensures cars == LoadCars(old(cars), makers, carRows)
    {
      var j := 0;
      while j < |carRows|
        invariant 0 <= j <= |carRows|
        invariant cars == LoadCars(old(cars), makers, carRows[..j])
      {
        LoadCarsStep(old(cars), makers, carRows, j);
        var row := carRows[j];
        var makerName := MakerName(makers, row.maker);
        var imageUrl := GenerateImageUrl(makerName, row.shortName);
        cars := cars[row.id := CarInfo(row.id, row.shortName, row.maker, makerName, imageUrl)];
        j := j + 1;
      }
      assert carRows[..|carRows|] == carRows;
    }
  }
}
