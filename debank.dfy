/** The DeBank side of the scrapers (scrapping/debank_scrapper.py and its copy scrapping.py):
    assembling a profile record per address, turning the records into protocol entries for
    the bot, and choosing the addresses worth scraping from a transaction table. */
module DeBank {
  import opened Wrappers
  import opened Text
  import Browser

  // ---------------------------------------------------------------------------
  // Records and the scraped dictionary

  /** One address's scraped fields: a JSON object whose keys are among the three below. */
  type Record = map<string, string>

  /** A JSON object keyed by address, in insertion order. */
  type Entries = seq<(string, Record)>

  const ImageKey := "image_url"
  const TagKey := "tag"
  const UsernameKey := "username"

  const EthLogo := "https://cryptologos.cc/logos/ethereum-eth-logo.png"
  const DescriptionSuffix := " - No additional description available."

  predicate DistinctKeys(e: Entries) {
    forall i, j :: 0 <= i < j < |e| ==> e[i].0 != e[j].0
  }

  predicate Distinct(s: seq<string>) {
    forall i, j :: 0 <= i < j < |s| ==> s[i] != s[j]
  }

  /** What one profile page yields. `loads` is false when `driver.get` itself raises,
      which nothing in `get_info` catches; each `None` is a lookup that timed out. */
  datatype ProfilePage = ProfilePage(loads: bool, avatarSrc: Option<string>, tagText: Option<string>, uidText: Option<string>)

  /** What opening and parsing the cache file gives: its JSON object, or an error
      (`json.load` failing, or `open` failing otherwise than by a missing file). */
  datatype CacheContents = Parsed(entries: Entries) | Corrupt

  function ProfileUrl(addr: string): string {
    "https://debank.com/profile/" + addr + "/"
  }

  function ProfileUrls(addresses: seq<string>): seq<string>
    decreases |addresses|
  {
    if addresses == [] then []
    else ProfileUrls(addresses[..|addresses| - 1]) + [ProfileUrl(Last(addresses))]
  }

  function SetIf(r: Record, key: string, value: Option<string>): Record {
    if value.Some? then r[key := value.value] else r
  }

  /** The record the three independent lookups of one page leave behind. */
  function RecordOf(page: ProfilePage): (r: Record)
    ensures r.Keys <= {ImageKey, TagKey, UsernameKey}
  {
    SetIf(SetIf(SetIf(map[], ImageKey, page.avatarSrc), TagKey, page.tagText), UsernameKey, page.uidText)
  }

  /** Each key of a record is present exactly when its own lookup succeeded, holding
      what that lookup read; the other two lookups have no say in it. */
  lemma RecordFields(page: ProfilePage)
    ensures ImageKey in RecordOf(page) <==> page.avatarSrc.Some?
    ensures TagKey in RecordOf(page) <==> page.tagText.Some?
    ensures UsernameKey in RecordOf(page) <==> page.uidText.Some?
    ensures page.avatarSrc.Some? ==> RecordOf(page)[ImageKey] == page.avatarSrc.value
    ensures page.tagText.Some? ==> RecordOf(page)[TagKey] == page.tagText.value
    ensures page.uidText.Some? ==> RecordOf(page)[UsernameKey] == page.uidText.value
  {
  }

  /** A failed lookup does not prevent the others: a page whose lookups all failed
      gives the empty record, and changing one lookup's outcome changes only its key. */
  lemma LookupsIndependent(page: ProfilePage, avatarSrc: Option<string>, tagText: Option<string>, uidText: Option<string>)
    ensures RecordOf(page.(avatarSrc := None, tagText := None, uidText := None)) == map[]
    ensures RecordOf(page.(avatarSrc := avatarSrc)) - {ImageKey} == RecordOf(page) - {ImageKey}
    ensures RecordOf(page.(tagText := tagText)) - {TagKey} == RecordOf(page) - {TagKey}
    ensures RecordOf(page.(uidText := uidText)) - {UsernameKey} == RecordOf(page) - {UsernameKey}
  {
    RecordFields(page);
    RecordFields(page.(avatarSrc := None, tagText := None, uidText := None));
    RecordFields(page.(avatarSrc := avatarSrc));
    RecordFields(page.(tagText := tagText));
    RecordFields(page.(uidText := uidText));
  }

  class DeBankScrapper {
    const driver: Browser.Driver
    const cacheFile: Option<string>

    constructor (driver: Browser.Driver, cacheFile: Option<string>)
      ensures this.driver == driver && this.cacheFile == cacheFile
    {
      this.driver := driver;
      this.cacheFile := cacheFile;
    }

    /** `get_info`: the cache file's contents when it exists, otherwise one record per
        address, in the set's iteration order `addresses`, from the pages in `pages`.
        `files` is the file system: a path that is not a key does not exist. */
    method GetInfo(addresses: seq<string>, pages: seq<ProfilePage>, files: map<string, CacheContents>) returns (r: Result<Entries>)
      requires Distinct(addresses) && |pages| == |addresses|
      modifies driver
      ensures cacheFile.Some? && cacheFile.value in files ==>
        && r == (match files[cacheFile.value] case Parsed(e) => Ok(e) case Corrupt => Err("cache file unreadable"))
        && driver.history == old(driver.history)
      ensures (cacheFile.None? || cacheFile.value !in files) && r.Ok? ==>
        && (forall i :: 0 <= i < |pages| ==> pages[i].loads)
        && |r.value| == |addresses|
        && (forall i :: 0 <= i < |addresses| ==> r.value[i] == (addresses[i], RecordOf(pages[i])))
        && DistinctKeys(r.value)
        && driver.history == old(driver.history) + ProfileUrls(addresses)
      ensures (cacheFile.None? || cacheFile.value !in files) && r.Err? ==>
        exists k :: 0 <= k < |addresses| && !pages[k].loads && (forall j :: 0 <= j < k ==> pages[j].loads)
          && driver.history == old(driver.history) + ProfileUrls(addresses[..k + 1])
    {
      if cacheFile.Some? && cacheFile.value in files {
        match files[cacheFile.value] {
          case Parsed(e) => return Ok(e);
          case Corrupt => return Err("cache file unreadable");
        }
      }
      var info: Entries := seq(|addresses|, i requires 0 <= i < |addresses| => (addresses[i], map[]));
      var i := 0;
      while i < |addresses|
        invariant 0 <= i <= |addresses| && |info| == |addresses|
        invariant forall j :: 0 <= j < i ==> pages[j].loads && info[j] == (addresses[j], RecordOf(pages[j]))
        invariant forall j :: i <= j < |addresses| ==> info[j] == (addresses[j], map[])
        invariant driver.history == old(driver.history) + ProfileUrls(addresses[..i])
      {
        var addr := addresses[i];
        driver.Get(ProfileUrl(addr));
        assert addresses[..i + 1][..i] == addresses[..i];
        if !pages[i].loads {
          return Err("driver.get failed");
        }
        var page := pages[i];
        var record := info[i].1;
        if page.avatarSrc.Some? {
          record := record[ImageKey := page.avatarSrc.value];
        }
        if page.tagText.Some? {
          record := record[TagKey := page.tagText.value];
        }
        if page.uidText.Some? {
          record := record[UsernameKey := page.uidText.value];
        }
        info := info[i := (addr, record)];
        i := i + 1;
      }
      assert addresses[..|addresses|] == addresses;
      return Ok(info);
    }
  }

  // ---------------------------------------------------------------------------
  // parse_scrapped_info

  /** The protocol entry the bot shows. */
  datatype Protocol = Protocol(name: string, hexAddress: string, description: string, url: string, imageUrl: string)

  function Get(info: Record, key: string, default: string): string {
    if key in info then info[key] else default
  }

  /** The tag, falling back to the username and then to "Unknown". */
  function TagOf(info: Record): string {
    Get(info, TagKey, Get(info, UsernameKey, "Unknown"))
  }

  /** The second colon-separated piece of the tag when it has a colon, otherwise the
      username, falling back to "Unknown". */
  function NameOf(info: Record): string {
    var tag := TagOf(info);
    if ':' in tag then
      SplitCount(tag, ':');
      Split(tag, ":")[1]
    else Get(info, UsernameKey, "Unknown")
  }

  /** The protocol entry for one key of the scraped dictionary. */
  function ToProtocol(key: string, info: Record): (p: Protocol)
    ensures p.hexAddress == key && p.url == "https://debank.com/profile/" + key
    ensures p.description == TagOf(info) + DescriptionSuffix
    ensures p.imageUrl == (if ImageKey in info then info[ImageKey] else EthLogo)
    ensures p.name == NameOf(info)
  {
    Protocol(NameOf(info), key, TagOf(info) + DescriptionSuffix, "https://debank.com/profile/" + key, Get(info, ImageKey, EthLogo))
  }

  /** `parse_scrapped_info`: one protocol per entry, in entry order. */
  method ParseScrappedInfo(scrapped: Entries) returns (protocols: seq<Protocol>)
    ensures |protocols| == |scrapped|
    ensures forall i :: 0 <= i < |scrapped| ==> protocols[i] == ToProtocol(scrapped[i].0, scrapped[i].1)
  {
    protocols := [];
    for i := 0 to |scrapped|
      invariant |protocols| == i
      invariant forall j :: 0 <= j < i ==> protocols[j] == ToProtocol(scrapped[j].0, scrapped[j].1)
    {
      var (hexAddress, info) := scrapped[i];
      protocols := protocols + [ToProtocol(hexAddress, info)];
    }
  }

  /** The tag falls back to the username and then to "Unknown". */
  lemma TagFallback(info: Record)
    ensures TagKey in info ==> TagOf(info) == info[TagKey]
    ensures TagKey !in info && UsernameKey in info ==> TagOf(info) == info[UsernameKey]
    ensures TagKey !in info && UsernameKey !in info ==> TagOf(info) == "Unknown"
  {
  }

  /** When the tag holds a colon, the name is the text between its first colon and the
      next colon or its end; otherwise it is the username, or "Unknown". */
  lemma NameIsSecondSegment(info: Record)
    ensures var tag, name := TagOf(info), NameOf(info);
      ':' in tag ==>
        exists k :: 0 <= k && k + 1 + |name| <= |tag|
          && ':' !in tag[..k] && tag[k] == ':'
          && tag[k + 1..k + 1 + |name|] == name && ':' !in name
          && (k + 1 + |name| == |tag| || tag[k + 1 + |name|] == ':')
    ensures ':' !in TagOf(info) ==> NameOf(info) == Get(info, UsernameKey, "Unknown")
  {
    var tag := TagOf(info);
    if ':' in tag {
      SecondSegment(tag, ':');
      var k := |Split(tag, ":")[0]|;
      assert ':' !in tag[..k];
    }
  }

  /** Scraping a page and parsing its record: the tag is the page's tag text, else its
      username, else "Unknown"; the image is the avatar, else the Ethereum logo. */
  lemma ScrapeThenParse(key: string, page: ProfilePage)
    ensures TagOf(RecordOf(page)) ==
      (if page.tagText.Some? then page.tagText.value
       else if page.uidText.Some? then page.uidText.value else "Unknown")
    ensures ToProtocol(key, RecordOf(page)).imageUrl ==
      (if page.avatarSrc.Some? then page.avatarSrc.value else EthLogo)
  {
    RecordFields(page);
  }

  // ---------------------------------------------------------------------------
  // read_addresses_from_csv

  /** A parsed CSV file: its header and its rows, each mapping a column to its cell; a
      column missing from a row is an empty (NaN) cell. */
  datatype CsvFile = Unparsable | Table(columns: set<string>, rows: seq<map<string, string>>)

  type Pair = (string, string)

  /** The (To, Method) pair of a row, when neither cell is empty. */
  function CellPair(row: map<string, string>): Option<Pair> {
    if "To" in row && "Method" in row then Some((row["To"], row["Method"])) else None
  }

  predicate Excluded(methodName: string) {
    methodName == "Approve" || methodName == "Execute"
  }

  /** The pairs `value_counts` sees: rows whose Method is neither Approve nor Execute,
      without the rows that have an empty cell, which it drops. */
  function Kept(rows: seq<map<string, string>>): seq<Pair>
    decreases |rows|
  {
    if rows == [] then []
    else
      var p := CellPair(rows[0]);
      (if p.Some? && !Excluded(p.value.1) then [p.value] else []) + Kept(rows[1..])
  }

  function Count(pairs: seq<Pair>, p: Pair): nat
    decreases |pairs|
  {
    if pairs == [] then 0 else (if pairs[0] == p then 1 else 0) + Count(pairs[1..], p)
  }

  /** `read_addresses_from_csv`: each (To, Method) pair occurring at least `threshold`
      times, with its count. `file` is `None` when the file does not exist, which the
      function reports and answers with `None`; a missing column or an unreadable file
      gives the empty result. */
  function ReadAddressesFromCsv(file: Option<CsvFile>, threshold: int := 10): (r: Option<map<Pair, nat>>)
    ensures r.None? <==> file.None?
    ensures file.Some? && (file.value.Unparsable? || !({"To", "Method"} <= file.value.columns)) ==> r == Some(map[])
    ensures r.Some? ==> forall p :: p in r.value ==> r.value[p] >= threshold && r.value[p] >= 1 && !Excluded(p.1)
  {
    match file
    case None => None
    case Some(Unparsable) => Some(map[])
    case Some(Table(columns, rows)) =>
      if "To" !in columns || "Method" !in columns then Some(map[])
      else
        var kept := Kept(rows);
        KeptNotExcluded(rows);
        CountPositive(kept);
        Some(map p | p in kept && Count(kept, p) >= threshold :: Count(kept, p))
  }

  lemma {:induction false} KeptNotExcluded(rows: seq<map<string, string>>)
    ensures forall p :: p in Kept(rows) ==> !Excluded(p.1)
    decreases |rows|
  {
    if rows != [] {
      KeptNotExcluded(rows[1..]);
    }
  }

  lemma {:induction false} CountPositive(pairs: seq<Pair>)
    ensures forall p :: p in pairs ==> Count(pairs, p) >= 1
    decreases |pairs|
  {
    if pairs != [] {
      CountPositive(pairs[1..]);
    }
  }

  /** Count is the multiplicity of the pair among the kept rows. */
  lemma {:induction false} CountIsMultiplicity(pairs: seq<Pair>, p: Pair)
    ensures Count(pairs, p) == multiset(pairs)[p]
    decreases |pairs|
  {
    if pairs != [] {
      CountIsMultiplicity(pairs[1..], p);
      assert pairs == [pairs[0]] + pairs[1..];
    }
  }

  /** A pair is kept exactly when some row carries it and its Method is not excluded. */
  lemma {:induction false} KeptMembers(rows: seq<map<string, string>>, p: Pair)
    ensures p in Kept(rows) <==> !Excluded(p.1) && exists i :: 0 <= i < |rows| && CellPair(rows[i]) == Some(p)
    decreases |rows|
  {
    if rows != [] {
      KeptMembers(rows[1..], p);
      if exists i :: 0 <= i < |rows| && CellPair(rows[i]) == Some(p) {
        var i :| 0 <= i < |rows| && CellPair(rows[i]) == Some(p);
        if i > 0 {
          assert CellPair(rows[1..][i - 1]) == Some(p);
        }
      }
    }
  }

  /** The result holds exactly the pairs, carried by some row and not excluded, whose
      multiplicity reaches the threshold, each with that multiplicity. */
  lemma ReadAddressesCounts(columns: set<string>, rows: seq<map<string, string>>, threshold: int, p: Pair)
    requires "To" in columns && "Method" in columns
    ensures var r := ReadAddressesFromCsv(Some(Table(columns, rows)), threshold).value;
      && (p in r <==>
          && !Excluded(p.1)
          && (exists i :: 0 <= i < |rows| && CellPair(rows[i]) == Some(p))
          && multiset(Kept(rows))[p] >= threshold)
      && (p in r ==> r[p] == multiset(Kept(rows))[p])
  {
    KeptMembers(rows, p);
    CountIsMultiplicity(Kept(rows), p);
  }
}
