/**
 * The catalog entry. `Entry` is its value; `Game` is the mutable record the
 * application builds and edits through setters.
 */
module Model {
  import opened Base

  /** A rating, kept as the decimal numeral that denotes it. */
  type Rating = string

  /** One catalog entry. Absent scalars are `None`; an absent list is the empty list. */
  datatype Entry = Entry(
    title: Option<string>,
    developer: Option<string>,
    publisher: Option<string>,
    genres: seq<string>,
    platforms: seq<string>,
    translators: seq<string>,
    steamId: Option<int>,
    releaseYear: Option<int>,
    language: Option<string>,
    rating: Option<Rating>,
    tags: seq<string>,
    coverImagePath: Option<string>,
    descriptionPath: Option<string>)

  /** The entry of a freshly constructed `Game`: every scalar absent, every list empty. */
  const Blank: Entry := Entry(None, None, None, [], [], [], None, None, None, None, [], None, None)

  /** What a list setter stores: a copy of the argument, or a new empty list for null. */
  function ListOrEmpty(xs: Option<seq<string>>): (r: seq<string>)
    ensures xs.None? ==> r == []
    ensures xs.Some? ==> r == xs.value
  {
    match xs
    case None => []
    case Some(v) => v
  }

  class Game {
    var title: Option<string>
    var developer: Option<string>
    var publisher: Option<string>
    var genres: seq<string>
    var platforms: seq<string>
    var translators: seq<string>
    var steamId: Option<int>
    var releaseYear: Option<int>
    var language: Option<string>
    var rating: Option<Rating>
    var tags: seq<string>
    var coverImagePath: Option<string>
    // The field keeps the source's spelling; its accessors are Get/SetDescriptionPath.
    var descrptionPath: Option<string>

    /** The value this record currently holds. */
    function ToEntry(): Entry
      reads this
    {
      Entry(title, developer, publisher, genres, platforms, translators,
            steamId, releaseYear, language, rating, tags, coverImagePath, descrptionPath)
    }

    /** The no-argument constructor: four empty lists, everything else absent. */
    constructor ()
      ensures ToEntry() == Blank
    {
      genres, platforms, translators, tags := [], [], [], [];
      title, developer, publisher := None, None, None;
      steamId, releaseYear, language, rating := None, None, None, None;
      coverImagePath, descrptionPath := None, None;
    }

    /** The constructor with the three required fields. */
    constructor WithRequired(title: Option<string>, developer: Option<string>, publisher: Option<string>)
      ensures ToEntry() == Blank.(title := title, developer := developer, publisher := publisher)
    {
      genres, platforms, translators, tags := [], [], [], [];
      this.title, this.developer, this.publisher := title, developer, publisher;
      steamId, releaseYear, language, rating := None, None, None, None;
      coverImagePath, descrptionPath := None, None;
    }

    /** The full constructor: a null list argument becomes an empty list. */
    constructor Full(title: Option<string>, developer: Option<string>, publisher: Option<string>,
                     genres: Option<seq<string>>, platforms: Option<seq<string>>,
                     translators: Option<seq<string>>, steamId: Option<int>,
                     releaseYear: Option<int>, language: Option<string>, rating: Option<Rating>,
                     tags: Option<seq<string>>, coverImagePath: Option<string>,
                     descrptionPath: Option<string>)
      ensures ToEntry() == Entry(title, developer, publisher, ListOrEmpty(genres),
                                 ListOrEmpty(platforms), ListOrEmpty(translators), steamId,
                                 releaseYear, language, rating, ListOrEmpty(tags),
                                 coverImagePath, descrptionPath)
    {
      this.title, this.developer, this.publisher := title, developer, publisher;
      this.genres := ListOrEmpty(genres);
      this.platforms := ListOrEmpty(platforms);
      this.translators := ListOrEmpty(translators);
      this.steamId, this.releaseYear, this.language, this.rating := steamId, releaseYear, language, rating;
      this.tags := ListOrEmpty(tags);
      this.coverImagePath, this.descrptionPath := coverImagePath, descrptionPath;
    }

    // The getters return the field as it stands: the value the last setter (or constructor) stored.

    method GetTitle() returns (v: Option<string>)
      ensures v == ToEntry().title
    {
      v := title;
    }

    method GetDeveloper() returns (v: Option<string>)
      ensures v == ToEntry().developer
    {
      v := developer;
    }

    method GetPublisher() returns (v: Option<string>)
      ensures v == ToEntry().publisher
    {
      v := publisher;
    }

    method GetGenres() returns (v: seq<string>)
      ensures v == ToEntry().genres
    {
      v := genres;
    }

    method GetPlatforms() returns (v: seq<string>)
      ensures v == ToEntry().platforms
    {
      v := platforms;
    }

    method GetTranslators() returns (v: seq<string>)
      ensures v == ToEntry().translators
    {
      v := translators;
    }

    method GetSteamId() returns (v: Option<int>)
      ensures v == ToEntry().steamId
    {
      v := steamId;
    }

    method GetReleaseYear() returns (v: Option<int>)
      ensures v == ToEntry().releaseYear
    {
      v := releaseYear;
    }

    method GetLanguage() returns (v: Option<string>)
      ensures v == ToEntry().language
    {
      v := language;
    }

    method GetRating() returns (v: Option<Rating>)
      ensures v == ToEntry().rating
    {
      v := rating;
    }

    method GetTags() returns (v: seq<string>)
      ensures v == ToEntry().tags
    {
      v := tags;
    }

    method GetCoverImagePath() returns (v: Option<string>)
      ensures v == ToEntry().coverImagePath
    {
      v := coverImagePath;
    }

    method SetTitle(v: Option<string>)
      modifies this
      ensures ToEntry() == old(ToEntry()).(title := v)
    {
      title := v;
    }

    method SetDeveloper(v: Option<string>)
      modifies this
      ensures ToEntry() == old(ToEntry()).(developer := v)
    {
      developer := v;
    }

    method SetPublisher(v: Option<string>)
      modifies this
      ensures ToEntry() == old(ToEntry()).(publisher := v)
    {
      publisher := v;
    }

    method SetGenres(v: Option<seq<string>>)
      modifies this
      ensures ToEntry() == old(ToEntry()).(genres := ListOrEmpty(v))
    {
      genres := ListOrEmpty(v);
    }

    method SetPlatforms(v: Option<seq<string>>)
      modifies this
      ensures ToEntry() == old(ToEntry()).(platforms := ListOrEmpty(v))
    {
      platforms := ListOrEmpty(v);
    }

    method SetTranslators(v: Option<seq<string>>)
      modifies this
      ensures ToEntry() == old(ToEntry()).(translators := ListOrEmpty(v))
    {
      translators := ListOrEmpty(v);
    }

    method SetSteamId(v: Option<int>)
      modifies this
      ensures ToEntry() == old(ToEntry()).(steamId := v)
    {
      steamId := v;
    }

    method SetReleaseYear(v: Option<int>)
      modifies this
      ensures ToEntry() == old(ToEntry()).(releaseYear := v)
    {
      releaseYear := v;
    }

    method SetLanguage(v: Option<string>)
      modifies this
      ensures ToEntry() == old(ToEntry()).(language := v)
    {
      language := v;
    }

    method SetRating(v: Option<Rating>)
      modifies this
      ensures ToEntry() == old(ToEntry()).(rating := v)
    {
      rating := v;
    }

    method SetTags(v: Option<seq<string>>)
      modifies this
      ensures ToEntry() == old(ToEntry()).(tags := ListOrEmpty(v))
    {
      tags := ListOrEmpty(v);
    }

    method SetCoverImagePath(v: Option<string>)
      modifies this
      ensures ToEntry() == old(ToEntry()).(coverImagePath := v)
    {
      coverImagePath := v;
    }

    /** Stores into the `descrptionPath` field. */
    method SetDescriptionPath(v: Option<string>)
      modifies this
      ensures descrptionPath == v
      ensures ToEntry() == old(ToEntry()).(descriptionPath := v)
    {
      descrptionPath := v;
    }

    /** Reads the `descrptionPath` field: what the last `SetDescriptionPath` stored. */
    method GetDescriptionPath() returns (v: Option<string>)
      ensures v == ToEntry().descriptionPath
    {
      v := descrptionPath;
    }
  }
}
