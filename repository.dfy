/**
 * `GameRepository`: the in-memory list of games, loaded from and saved to the
 * catalog document, with the index-checked edits and the queries over it.
 */
module Repository {
  import opened Base
  import opened Text
  import opened Sorting
  import opened Model
  import opened Codec
  import opened Queries

  /** `getMinReleaseYear` starts from this year and treats it as "none found". */
  const MinYearStart := 2025
  /** What `getMinReleaseYear` reports when no year lies below `MinYearStart`. */
  const MinYearDefault := 1970

  /** The inner loop of the facet aggregators: each value not yet collected is appended. */
  method AddAbsent(all: seq<string>, ghost before: seq<string>, list: seq<string>) returns (r: seq<string>)
    requires all == Distinct(before)
    ensures r == Distinct(before + list)
  {
    r := all;
    var j := 0;
    assert before + list[..0] == before;
    while j < |list|
      invariant 0 <= j <= |list|
      invariant r == Distinct(before + list[..j])
    {
      DistinctSnoc(before + list[..j], list[j]);
      assert list[..j + 1] == list[..j] + [list[j]];
      assert before + list[..j] + [list[j]] == before + list[..j + 1];
      if list[j] !in r {
        r := r + [list[j]];
      }
      j := j + 1;
    }
    assert list[..j] == list;
  }

  /** The writing loop of `saveGames`: the opening line, the entries separated by `",\n"`, the closing line. */
  method WriteDocument(games: seq<Entry>) returns (written: string)
    ensures written == Serialize(games)
  {
    ghost var texts := EntryTexts(games);
    written := "[\n";
    var i := 0;
    while i < |games|
      invariant 0 <= i <= |games|
      invariant written == Written(texts, i)
    {
      var json := GameToJson(games[i]);
      WrittenStep(texts, i);
      written := written + json;
      if i < |games| - 1 {
        written := written + ",\n";
      }
      i := i + 1;
    }
    WrittenClose(texts);
    written := written + "\n]";
  }

  class GameRepository {
    var games: seq<Entry>

    /**
     * The constructor with `loadGames`: `readOk` says whether reading the file
     * succeeded (a failed read is logged and leaves the list empty), `content`
     * is what was read. A `parseInt` failure is not caught there, so a caller
     * has to supply a document without one.
     */
    constructor (readOk: bool, content: string)
      requires readOk ==> Load(content).Ok?
      ensures games == (if readOk then Load(content).value else [])
    {
      games := [];
      if readOk {
        var loaded := ParseGamesFromJson(content);
        games := loaded.value;
      }
    }

    /**
     * `saveGames`: `writeOk` says whether the file could be written; the
     * result and the text written. The list itself does not change.
     */
    method SaveGames(writeOk: bool) returns (ok: bool, written: string)
      ensures ok == writeOk
      ensures ok ==> written == Serialize(games)
    {
      if !writeOk {
        return false, "";
      }
      written := WriteDocument(games);
      ok := true;
    }

    /** `getAllGames`: a copy of the list. */
    method GetAllGames() returns (r: seq<Entry>)
      ensures r == games
    {
      r := games;
    }

    /** `addGame`: a null game is refused; otherwise it is appended. */
    method AddGame(game: Option<Entry>) returns (ok: bool)
      modifies this
      ensures ok <==> game.Some?
      ensures games == if ok then old(games) + [game.value] else old(games)
    {
      if game.None? {
        return false;
      }
      games := games + [game.value];
      ok := true;
    }

    /** `updateGame`: a null game or an index outside the list is refused; otherwise that position is replaced. */
    method UpdateGame(index: int, game: Option<Entry>) returns (ok: bool)
      modifies this
      ensures ok <==> game.Some? && 0 <= index < |old(games)|
      ensures games == if ok then old(games)[index := game.value] else old(games)
    {
      if game.None? || index < 0 || index >= |games| {
        return false;
      }
      games := games[index := game.value];
      ok := true;
    }

    /** `removeGame`: an index outside the list is refused; otherwise exactly that entry goes. */
    method RemoveGame(index: int) returns (ok: bool)
      modifies this
      ensures ok <==> 0 <= index < |old(games)|
      ensures games == if ok then old(games)[..index] + old(games)[index + 1..] else old(games)
    {
      if index < 0 || index >= |games| {
        return false;
      }
      games := games[..index] + games[index + 1..];
      ok := true;
    }

    method GetGameCount() returns (n: int)
      ensures n == |games|
    {
      n := |games|;
    }

    // ---------------------------------------------------------- aggregators

    /** The collecting loops of `getAllGenres`, `getAllPlatforms` and `getAllTags`. */
    method CollectFacet(f: Facet) returns (all: seq<string>)
      ensures all == Distinct(FacetValues(games, f))
    {
      all := [];
      var i := 0;
      while i < |games|
        invariant 0 <= i <= |games|
        invariant all == Distinct(FacetValues(games[..i], f))
      {
        all := AddAbsent(all, FacetValues(games[..i], f), FacetOf(games[i], f));
        FacetValuesSnoc(games, i, f);
        i := i + 1;
      }
      assert games[..i] == games;
    }

    /** The collecting loops of `getAllPublishers` and `getAllDevelopers`: null and empty values are skipped. */
    method CollectCredit(c: Credit) returns (all: seq<string>)
      ensures all == Distinct(CreditValues(games, c))
    {
      all := [];
      var i := 0;
      while i < |games|
        invariant 0 <= i <= |games|
        invariant all == Distinct(CreditValues(games[..i], c))
      {
        var v := CreditOf(games[i], c);
        CreditValuesSnoc(games, i, c);
        ghost var before := CreditValues(games[..i], c);
        if v.Some? && v.value != "" {
          DistinctSnoc(before, v.value);
          if v.value !in all {
            all := all + [v.value];
          }
        } else {
          assert before + [] == before;
        }
        i := i + 1;
      }
      assert games[..i] == games;
    }

    method GetAllGenres() returns (r: seq<string>)
      ensures r == Aggregate(FacetValues(games, Genres))
    {
      r := CollectFacet(Genres);
      r := Sort(r, IgnoreCaseOrder);
    }

    method GetAllPlatforms() returns (r: seq<string>)
      ensures r == Aggregate(FacetValues(games, Platforms))
    {
      r := CollectFacet(Platforms);
      r := Sort(r, IgnoreCaseOrder);
    }

    method GetAllTags() returns (r: seq<string>)
      ensures r == Aggregate(FacetValues(games, Tags))
    {
      r := CollectFacet(Tags);
      r := Sort(r, IgnoreCaseOrder);
    }

    method GetAllPublishers() returns (r: seq<string>)
      ensures r == Aggregate(CreditValues(games, Publisher))
    {
      r := CollectCredit(Publisher);
      r := Sort(r, IgnoreCaseOrder);
    }

    method GetAllDevelopers() returns (r: seq<string>)
      ensures r == Aggregate(CreditValues(games, Developer))
    {
      r := CollectCredit(Developer);
      r := Sort(r, IgnoreCaseOrder);
    }

    // ---------------------------------------------------------- year bounds

    /** `getMaxReleaseYear`: the current year (a parameter here) or a later release year, the largest. */
    method GetMaxReleaseYear(currentYear: int) returns (r: int)
      ensures r >= currentYear
      ensures forall i :: 0 <= i < |games| && games[i].releaseYear.Some? ==> games[i].releaseYear.value <= r
      ensures r == currentYear || exists i :: 0 <= i < |games| && games[i].releaseYear == Some(r)
    {
      r := currentYear;
      var i := 0;
      while i < |games|
        invariant 0 <= i <= |games|
        invariant r >= currentYear
        invariant forall k :: 0 <= k < i && games[k].releaseYear.Some? ==> games[k].releaseYear.value <= r
        invariant r == currentYear || exists k :: 0 <= k < i && games[k].releaseYear == Some(r)
      {
        var y := games[i].releaseYear;
        if y.Some? && y.value > r {
          r := y.value;
        }
        i := i + 1;
      }
    }

    /**
     * `getMinReleaseYear`: the smallest release year when one lies below 2025;
     * otherwise 1970, even when every year present is 2025 or later.
     */
    method GetMinReleaseYear() returns (r: int)
      ensures (forall i :: 0 <= i < |games| && games[i].releaseYear.Some? ==> games[i].releaseYear.value >= MinYearStart)
        ==> r == MinYearDefault
      ensures (exists i :: 0 <= i < |games| && games[i].releaseYear.Some? && games[i].releaseYear.value < MinYearStart)
        ==> (&& (exists i :: 0 <= i < |games| && games[i].releaseYear == Some(r))
             && (forall i :: 0 <= i < |games| && games[i].releaseYear.Some? ==> r <= games[i].releaseYear.value))
    {
      r := MinYearStart;
      var i := 0;
      while i < |games|
        invariant 0 <= i <= |games|
        invariant r <= MinYearStart
        invariant forall k :: 0 <= k < i && games[k].releaseYear.Some? ==> r <= games[k].releaseYear.value
        invariant r == MinYearStart || exists k :: 0 <= k < i && games[k].releaseYear == Some(r)
        invariant (exists k :: 0 <= k < i && games[k].releaseYear.Some? && games[k].releaseYear.value < MinYearStart)
          ==> r < MinYearStart
      {
        var y := games[i].releaseYear;
        if y.Some? && y.value < r {
          r := y.value;
        }
        i := i + 1;
      }
      if r == MinYearStart {
        r := MinYearDefault;
      }
    }

    // -------------------------------------------------------------- filters

    /** The loop of `getGamesByGenre`, `getGamesByPlatform` and `getGamesByTag`; a null or empty value keeps every game. */
    method FilterByFacet(f: Facet, value: Option<string>) returns (r: seq<Entry>)
      ensures value.None? || value.value == "" ==> r == games
      ensures value.Some? && value.value != "" ==> r == Select(games, HasFacet(f, value.value))
    {
      if value.None? || value.value == "" {
        return games;
      }
      r := SelectLoop(HasFacet(f, value.value));
    }

    /** The loop of `getGamesByPublisher` and `getGamesByDeveloper`; a null or empty value keeps every game. */
    method FilterByCredit(c: Credit, value: Option<string>) returns (r: seq<Entry>)
      ensures value.None? || value.value == "" ==> r == games
      ensures value.Some? && value.value != "" ==> r == Select(games, HasCredit(c, value.value))
    {
      if value.None? || value.value == "" {
        return games;
      }
      r := SelectLoop(HasCredit(c, value.value));
    }

    /** The filtering loop shared by the `getGamesBy...` queries. */
    method SelectLoop(c: Criterion) returns (r: seq<Entry>)
      ensures r == Select(games, c)
    {
      r := [];
      var i := 0;
      while i < |games|
        invariant 0 <= i <= |games|
        invariant r == Select(games[..i], c)
      {
        assert games[..i + 1][..i] == games[..i];
        if Matches(games[i], c) {
          r := r + [games[i]];
        }
        i := i + 1;
      }
      assert games[..i] == games;
    }

    method GetGamesByGenre(genre: Option<string>) returns (r: seq<Entry>)
      ensures genre.None? || genre.value == "" ==> r == games
      ensures genre.Some? && genre.value != "" ==> r == Select(games, HasFacet(Genres, genre.value))
    {
      r := FilterByFacet(Genres, genre);
    }

    method GetGamesByPlatform(platform: Option<string>) returns (r: seq<Entry>)
      ensures platform.None? || platform.value == "" ==> r == games
      ensures platform.Some? && platform.value != "" ==> r == Select(games, HasFacet(Platforms, platform.value))
    {
      r := FilterByFacet(Platforms, platform);
    }

    method GetGamesByTag(tag: Option<string>) returns (r: seq<Entry>)
      ensures tag.None? || tag.value == "" ==> r == games
      ensures tag.Some? && tag.value != "" ==> r == Select(games, HasFacet(Tags, tag.value))
    {
      r := FilterByFacet(Tags, tag);
    }

    method GetGamesByPublisher(publisher: Option<string>) returns (r: seq<Entry>)
      ensures publisher.None? || publisher.value == "" ==> r == games
      ensures publisher.Some? && publisher.value != "" ==> r == Select(games, HasCredit(Publisher, publisher.value))
    {
      r := FilterByCredit(Publisher, publisher);
    }

    method GetGamesByDeveloper(developer: Option<string>) returns (r: seq<Entry>)
      ensures developer.None? || developer.value == "" ==> r == games
      ensures developer.Some? && developer.value != "" ==> r == Select(games, HasCredit(Developer, developer.value))
    {
      r := FilterByCredit(Developer, developer);
    }

    /** `getGamesByYearRange`: the games with a release year in `[startYear, endYear]`. */
    method GetGamesByYearRange(startYear: int, endYear: int) returns (r: seq<Entry>)
      ensures r == Select(games, YearIn(startYear, endYear))
    {
      r := SelectLoop(YearIn(startYear, endYear));
    }

    // ---------------------------------------------------------- title sorts

    /** `getGamesSortedByTitleAsc`: a sorted copy; the list itself is left as it is. */
    method GetGamesSortedByTitleAsc() returns (r: seq<Entry>)
      ensures r == Sort(games, TitleAscOrder)
    {
      r := games;
      r := Sort(r, TitleAscOrder);
    }

    /** `getGamesSortedByTitleDesc`: a sorted copy; the list itself is left as it is. */
    method GetGamesSortedByTitleDesc() returns (r: seq<Entry>)
      ensures r == Sort(games, TitleDescOrder)
    {
      r := games;
      r := Sort(r, TitleDescOrder);
    }
  }
}
