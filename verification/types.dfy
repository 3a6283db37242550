/**
 The closed string vocabularies of the API. Each enum derives strum's
 `EnumString` (`from_str`), `AsRefStr` (`as_ref`) and `Display` (`to_string`)
 from one `serialize` attribute per variant, so one `Serialize` function
 models both printers and `FromStr` models the derived parser: a match on
 the exact string, with `VariantNotFound` for every other string.
 */

module AlbumTypes {
  import opened Results
  import Vocabulary

  /** The album type of a release: 'album', 'single', 'appears_on' or 'compilation'. */
  datatype AlbumType = Album | Single | AppearsOn | Compilation

  /** Every variant, in declaration order: the vocabulary's table. */
  const All: seq<AlbumType> := [Album, Single, AppearsOn, Compilation]

  /** The canonical string of a variant, as printed by `as_ref` and by `to_string`. */
  function Serialize(t: AlbumType): (s: string)
    ensures Vocabulary.SnakeCase(s)
  {
    match t
    case Album => "album"
    case Single => "single"
    case AppearsOn => "appears_on"
    case Compilation => "compilation"
  }

  /** The derived `from_str`: exactly the canonical strings are accepted. */
  function FromStr(s: string): (r: Result<AlbumType, Vocabulary.ParseError>)
    ensures r.Success? ==> Serialize(r.value) == s
    ensures r.Failure? ==> forall t: AlbumType :: Serialize(t) != s
  {
    match s
    case "album" => Success(Album)
    case "single" => Success(Single)
    case "appears_on" => Success(AppearsOn)
    case "compilation" => Success(Compilation)
    case _ => Failure(Vocabulary.VariantNotFound)
  }

  /** The table lists every variant. */
  lemma AllIsComplete(t: AlbumType)
    ensures t in All
  {
  }

  /** The canonical strings are pairwise distinct. */
  lemma TableIsDistinct()
    ensures Vocabulary.Distinct(All, Serialize)
  {
  }

  /** Printing then parsing gives the variant back. */
  lemma RoundTrip(t: AlbumType)
    ensures FromStr(Serialize(t)) == Success(t)
  {
    TableIsDistinct();
    AllIsComplete(t);
    FromStrIsTableLookup(Serialize(t));
    Vocabulary.LookupShow(All, Serialize, t);
  }

  /** Distinct variants print differently. */
  lemma SerializeIsInjective(a: AlbumType, b: AlbumType)
    ensures Serialize(a) == Serialize(b) ==> a == b
  {
  }

  /** `FromStr(s)` is `Success(t)` exactly when `s` is the canonical string of `t`. */
  lemma FromStrInvertsSerialize(s: string, t: AlbumType)
    ensures FromStr(s) == Success(t) <==> Serialize(t) == s
  {
    TableIsDistinct();
    AllIsComplete(t);
    FromStrIsTableLookup(s);
    Vocabulary.TableParseInvertsShow(All, Serialize, s, t);
  }

  /** The derived parser agrees on every string with the table-driven reference parser. */
  lemma FromStrIsTableLookup(s: string)
    ensures FromStr(s) == Vocabulary.ParseByTable(All, Serialize, s)
  {
  }
}

module Types {
  import opened Results
  import Vocabulary

  /** The kind of object an identifier names: 'artist', 'album', 'track', 'playlist', 'user', 'show' or 'episode'. */
  datatype Type = Artist | Album | Track | Playlist | User | Show | Episode

  /** Every variant, in declaration order: the vocabulary's table. */
  const All: seq<Type> := [Artist, Album, Track, Playlist, User, Show, Episode]

  /** The canonical string of a variant, as printed by `as_ref` and by `to_string`. */
  function Serialize(t: Type): (s: string)
    ensures Vocabulary.SnakeCase(s)
  {
    match t
    case Artist => "artist"
    case Album => "album"
    case Track => "track"
    case Playlist => "playlist"
    case User => "user"
    case Show => "show"
    case Episode => "episode"
  }

  /** The derived `from_str`: exactly the canonical strings are accepted. */
  function FromStr(s: string): (r: Result<Type, Vocabulary.ParseError>)
    ensures r.Success? ==> Serialize(r.value) == s
    ensures r.Failure? ==> forall t: Type :: Serialize(t) != s
  {
    match s
    case "artist" => Success(Artist)
    case "album" => Success(Album)
    case "track" => Success(Track)
    case "playlist" => Success(Playlist)
    case "user" => Success(User)
    case "show" => Success(Show)
    case "episode" => Success(Episode)
    case _ => Failure(Vocabulary.VariantNotFound)
  }

  /** The table lists every variant. */
  lemma AllIsComplete(t: Type)
    ensures t in All
  {
  }

  /** The canonical strings are pairwise distinct. */
  lemma TableIsDistinct()
    ensures Vocabulary.Distinct(All, Serialize)
  {
  }

  /** Printing then parsing gives the variant back. */
  lemma RoundTrip(t: Type)
    ensures FromStr(Serialize(t)) == Success(t)
  {
    TableIsDistinct();
    AllIsComplete(t);
    FromStrIsTableLookup(Serialize(t));
    Vocabulary.LookupShow(All, Serialize, t);
  }

  /** Distinct variants print differently. */
  lemma SerializeIsInjective(a: Type, b: Type)
    ensures Serialize(a) == Serialize(b) ==> a == b
  {
  }

  /** `FromStr(s)` is `Success(t)` exactly when `s` is the canonical string of `t`. */
  lemma FromStrInvertsSerialize(s: string, t: Type)
    ensures FromStr(s) == Success(t) <==> Serialize(t) == s
  {
    TableIsDistinct();
    AllIsComplete(t);
    FromStrIsTableLookup(s);
    Vocabulary.TableParseInvertsShow(All, Serialize, s, t);
  }

  /** The derived parser agrees on every string with the table-driven reference parser. */
  lemma FromStrIsTableLookup(s: string)
    ensures FromStr(s) == Vocabulary.ParseByTable(All, Serialize, s)
  {
  }
}

module AdditionalTypes {
  import opened Results
  import Vocabulary

  /** The item types a playback query may return besides tracks: 'track' or 'episode'. */
  datatype AdditionalType = Track | Episode

  /** Every variant, in declaration order: the vocabulary's table. */
  const All: seq<AdditionalType> := [Track, Episode]

  /** The canonical string of a variant, as printed by `as_ref` and by `to_string`. */
  function Serialize(t: AdditionalType): (s: string)
    ensures Vocabulary.SnakeCase(s)
  {
    match t
    case Track => "track"
    case Episode => "episode"
  }

  /** The derived `from_str`: exactly the canonical strings are accepted. */
  function FromStr(s: string): (r: Result<AdditionalType, Vocabulary.ParseError>)
    ensures r.Success? ==> Serialize(r.value) == s
    ensures r.Failure? ==> forall t: AdditionalType :: Serialize(t) != s
  {
    match s
    case "track" => Success(Track)
    case "episode" => Success(Episode)
    case _ => Failure(Vocabulary.VariantNotFound)
  }

  /** The table lists every variant. */
  lemma AllIsComplete(t: AdditionalType)
    ensures t in All
  {
  }

  /** The canonical strings are pairwise distinct. */
  lemma TableIsDistinct()
    ensures Vocabulary.Distinct(All, Serialize)
  {
  }

  /** Printing then parsing gives the variant back. */
  lemma RoundTrip(t: AdditionalType)
    ensures FromStr(Serialize(t)) == Success(t)
  {
    TableIsDistinct();
    AllIsComplete(t);
    FromStrIsTableLookup(Serialize(t));
    Vocabulary.LookupShow(All, Serialize, t);
  }

  /** Distinct variants print differently. */
  lemma SerializeIsInjective(a: AdditionalType, b: AdditionalType)
    ensures Serialize(a) == Serialize(b) ==> a == b
  {
  }

  /** `FromStr(s)` is `Success(t)` exactly when `s` is the canonical string of `t`. */
  lemma FromStrInvertsSerialize(s: string, t: AdditionalType)
    ensures FromStr(s) == Success(t) <==> Serialize(t) == s
  {
    TableIsDistinct();
    AllIsComplete(t);
    FromStrIsTableLookup(s);
    Vocabulary.TableParseInvertsShow(All, Serialize, s, t);
  }

  /** The derived parser agrees on every string with the table-driven reference parser. */
  lemma FromStrIsTableLookup(s: string)
    ensures FromStr(s) == Vocabulary.ParseByTable(All, Serialize, s)
  {
  }
}

module CurrentlyPlayingTypes {
  import opened Results
  import Vocabulary

  /** The kind of item currently playing: 'track', 'episode', 'ad' or 'unknown'. */
  datatype CurrentlyPlayingType = Track | Episode | Advertisement | Unknown

  /** Every variant, in declaration order: the vocabulary's table. */
  const All: seq<CurrentlyPlayingType> := [Track, Episode, Advertisement, Unknown]

  /** The canonical string of a variant, as printed by `as_ref` and by `to_string`. */
  function Serialize(t: CurrentlyPlayingType): (s: string)
    ensures Vocabulary.SnakeCase(s)
  {
    match t
    case Track => "track"
    case Episode => "episode"
    case Advertisement => "ad"
    case Unknown => "unknown"
  }

  /** The derived `from_str`: exactly the canonical strings are accepted. */
  function FromStr(s: string): (r: Result<CurrentlyPlayingType, Vocabulary.ParseError>)
    ensures r.Success? ==> Serialize(r.value) == s
    ensures r.Failure? ==> forall t: CurrentlyPlayingType :: Serialize(t) != s
  {
    match s
    case "track" => Success(Track)
    case "episode" => Success(Episode)
    case "ad" => Success(Advertisement)
    case "unknown" => Success(Unknown)
    case _ => Failure(Vocabulary.VariantNotFound)
  }

  /** The table lists every variant. */
  lemma AllIsComplete(t: CurrentlyPlayingType)
    ensures t in All
  {
  }

  /** The canonical strings are pairwise distinct. */
  lemma TableIsDistinct()
    ensures Vocabulary.Distinct(All, Serialize)
  {
  }

  /** Printing then parsing gives the variant back. */
  lemma RoundTrip(t: CurrentlyPlayingType)
    ensures FromStr(Serialize(t)) == Success(t)
  {
    TableIsDistinct();
    AllIsComplete(t);
    FromStrIsTableLookup(Serialize(t));
    Vocabulary.LookupShow(All, Serialize, t);
  }

  /** Distinct variants print differently. */
  lemma SerializeIsInjective(a: CurrentlyPlayingType, b: CurrentlyPlayingType)
    ensures Serialize(a) == Serialize(b) ==> a == b
  {
  }

  /** `FromStr(s)` is `Success(t)` exactly when `s` is the canonical string of `t`. */
  lemma FromStrInvertsSerialize(s: string, t: CurrentlyPlayingType)
    ensures FromStr(s) == Success(t) <==> Serialize(t) == s
  {
    TableIsDistinct();
    AllIsComplete(t);
    FromStrIsTableLookup(s);
    Vocabulary.TableParseInvertsShow(All, Serialize, s, t);
  }

  /** The derived parser agrees on every string with the table-driven reference parser. */
  lemma FromStrIsTableLookup(s: string)
    ensures FromStr(s) == Vocabulary.ParseByTable(All, Serialize, s)
  {
  }
}

module SearchTypes {
  import opened Results
  import Vocabulary

  /** The object kinds a search may ask for: 'artist', 'album', 'track', 'playlist', 'show' or 'episode'. */
  datatype SearchType = Artist | Album | Track | Playlist | Show | Episode

  /** Every variant, in declaration order: the vocabulary's table. */
  const All: seq<SearchType> := [Artist, Album, Track, Playlist, Show, Episode]

  /** The canonical string of a variant, as printed by `as_ref` and by `to_string`. */
  function Serialize(t: SearchType): (s: string)
    ensures Vocabulary.SnakeCase(s)
  {
    match t
    case Artist => "artist"
    case Album => "album"
    case Track => "track"
    case Playlist => "playlist"
    case Show => "show"
    case Episode => "episode"
  }

  /** The derived `from_str`: exactly the canonical strings are accepted. */
  function FromStr(s: string): (r: Result<SearchType, Vocabulary.ParseError>)
    ensures r.Success? ==> Serialize(r.value) == s
    ensures r.Failure? ==> forall t: SearchType :: Serialize(t) != s
  {
    match s
    case "artist" => Success(Artist)
    case "album" => Success(Album)
    case "track" => Success(Track)
    case "playlist" => Success(Playlist)
    case "show" => Success(Show)
    case "episode" => Success(Episode)
    case _ => Failure(Vocabulary.VariantNotFound)
  }

  /** The table lists every variant. */
  lemma AllIsComplete(t: SearchType)
    ensures t in All
  {
  }

  /** The canonical strings are pairwise distinct. */
  lemma TableIsDistinct()
    ensures Vocabulary.Distinct(All, Serialize)
  {
  }

  /** Printing then parsing gives the variant back. */
  lemma RoundTrip(t: SearchType)
    ensures FromStr(Serialize(t)) == Success(t)
  {
    TableIsDistinct();
    AllIsComplete(t);
    FromStrIsTableLookup(Serialize(t));
    Vocabulary.LookupShow(All, Serialize, t);
  }

  /** Distinct variants print differently. */
  lemma SerializeIsInjective(a: SearchType, b: SearchType)
    ensures Serialize(a) == Serialize(b) ==> a == b
  {
  }

  /** `FromStr(s)` is `Success(t)` exactly when `s` is the canonical string of `t`. */
  lemma FromStrInvertsSerialize(s: string, t: SearchType)
    ensures FromStr(s) == Success(t) <==> Serialize(t) == s
  {
    TableIsDistinct();
    AllIsComplete(t);
    FromStrIsTableLookup(s);
    Vocabulary.TableParseInvertsShow(All, Serialize, s, t);
  }

  /** The derived parser agrees on every string with the table-driven reference parser. */
  lemma FromStrIsTableLookup(s: string)
    ensures FromStr(s) == Vocabulary.ParseByTable(All, Serialize, s)
  {
  }
}

/** `EnumError` and its `ErrorKind`: a small error value kept beside the
    vocabularies. The derived parsers above do not return it. */
module EnumErrors {

  /** The kind of an enum error; `NoEnum` carries the string that matched no variant. */
  datatype ErrorKind = NoEnum(unmatched: string)

  datatype EnumError = EnumError(kind: ErrorKind)

  /** `EnumError::new`: reading the kind back gives the kind it was built from. */
  function New(kind: ErrorKind): (e: EnumError)
    ensures Kind(e) == kind
  {
    EnumError(kind)
  }

  /** `EnumError::kind`. */
  function Kind(e: EnumError): (k: ErrorKind)
  {
    e.kind
  }

  /** Every error is the one `New` builds from its kind, so `New` and `Kind` are inverse. */
  lemma NewOfKind(e: EnumError)
    ensures New(Kind(e)) == e
  {
  }
}

/** Facts relating the vocabularies to one another and to the spellings the
    derives do not accept. */
module VocabularyFacts {
  import opened Results
  import AlbumTypes
  import Types
  import AdditionalTypes
  import CurrentlyPlayingTypes
  import SearchTypes

  /** Strings outside a table are rejected. */
  lemma UnknownStringsRejected()
    ensures AlbumTypes.FromStr("not exist album").Failure?
    ensures SearchTypes.FromStr("unknown_search_type").Failure?
    ensures Types.FromStr("not_exist_type").Failure?
  {
  }

  /** The canonical string is the attribute, not the variant name or serde's
      snake_case spelling of it. */
  lemma AttributeNotVariantName()
    ensures AlbumTypes.Serialize(AlbumTypes.AppearsOn) == "appears_on"
    ensures AlbumTypes.FromStr("AppearsOn").Failure?
    ensures CurrentlyPlayingTypes.Serialize(CurrentlyPlayingTypes.Advertisement) == "ad"
    ensures CurrentlyPlayingTypes.FromStr("Advertisement").Failure?
    ensures CurrentlyPlayingTypes.FromStr("advertisement").Failure?
  {
  }

  /** "user" names a `Type` but not a `SearchType`. */
  lemma UserIsNotASearchType()
    ensures Types.FromStr("user") == Success(Types.User)
    ensures SearchTypes.FromStr("user").Failure?
  {
  }

  /** "ad" is accepted by `CurrentlyPlayingType` alone. */
  lemma AdOnlyCurrentlyPlaying()
    ensures CurrentlyPlayingTypes.FromStr("ad") == Success(CurrentlyPlayingTypes.Advertisement)
    ensures AlbumTypes.FromStr("ad").Failure?
    ensures Types.FromStr("ad").Failure?
    ensures AdditionalTypes.FromStr("ad").Failure?
    ensures SearchTypes.FromStr("ad").Failure?
  {
  }

  /** The search vocabulary is the object-type vocabulary without "user". */
  lemma SearchTypesAreTypesWithoutUser(s: string)
    ensures SearchTypes.FromStr(s).Success? <==> Types.FromStr(s).Success? && s != "user"
  {
  }

  /** Every additional type is also a currently-playing type. */
  lemma AdditionalTypesArePlayable(s: string)
    ensures AdditionalTypes.FromStr(s).Success? ==> CurrentlyPlayingTypes.FromStr(s).Success?
  {
  }
}
