/**
 * `MovieFormats`: the missing-date text, the genre-to-emoji table, the list of
 * genres offered in the form and the list of selectable years.
 */
module MovieFormats {
  import opened Wrappers
  import opened Text

  const NoDate := "Sin fecha"

  /**
   * `formatDate`: a missing timestamp reads "Sin fecha"; a present one is
   * formatted with the pattern "dd/MM/yyyy". `format(pattern, t)` stands for
   * `SimpleDateFormat(pattern, Locale.getDefault()).format(Date(t))`.
   */
  function FormatDate(timestamp: Option<int>, format: (string, int) -> string): (r: string)
    ensures timestamp.None? ==> r == NoDate
    ensures timestamp.Some? ==> r == format("dd/MM/yyyy", timestamp.value)
  {
    match timestamp
    case None => NoDate
    case Some(t) => format("dd/MM/yyyy", t)
  }

  /** `formatDateTime`: as `formatDate`, with the pattern "dd/MM/yyyy HH:mm". */
  function FormatDateTime(timestamp: Option<int>, format: (string, int) -> string): (r: string)
    ensures timestamp.None? ==> r == NoDate
    ensures timestamp.Some? ==> r == format("dd/MM/yyyy HH:mm", timestamp.value)
  {
    match timestamp
    case None => NoDate
    case Some(t) => format("dd/MM/yyyy HH:mm", t)
  }

  const Explosion := "\U{1F4A5}"
  const Laughing := "\U{1F602}"
  const Masks := "\U{1F3AD}"
  const Ghost := "\U{1F47B}"
  const Rocket := "\U{1F680}"
  const Heart := "\U{2764}\U{FE0F}"
  const Knife := "\U{1F52A}"
  const WorldMap := "\U{1F5FA}\U{FE0F}"
  const Mage := "\U{1F9D9}"
  const Palette := "\U{1F3A8}"
  const VideoCamera := "\U{1F4F9}"
  const MusicalNote := "\U{1F3B5}"
  const CowboyHat := "\U{1F920}"
  const Detective := "\U{1F575}\U{FE0F}"
  const MagnifyingGlass := "\U{1F50D}"
  /** The clapper board shown for any genre the table does not know. */
  const Clapper := "\U{1F3AC}"

  /**
   * `getGenreEmoji`: the lower-cased genre looked up in the `when` table. The
   * result is the entry of `EmojiTable` for the lower-cased genre, and the
   * clapper board exactly when that spelling is not listed.
   */
  function GenreEmoji(genre: string): (r: string)
    ensures Lowercase(genre) in EmojiTable ==> r == EmojiTable[Lowercase(genre)]
    ensures r == Clapper <==> Lowercase(genre) !in EmojiTable
  {
    var g := Lowercase(genre);
    if g in EmojiTable then
      EmojiForListed(g);
      EmojiFor(g)
    else
      EmojiForUnlisted(g);
      EmojiFor(g)
  }

  /** The `when` table of `getGenreEmoji`, over lower-case spellings. */
  function EmojiFor(g: string): (r: string) {
    if g == "acción" || g == "accion" then Explosion
    else if g == "comedia" then Laughing
    else if g == "drama" then Masks
    else if g == "terror" || g == "horror" then Ghost
    else if g == "ciencia ficción" || g == "ciencia ficcion" || g == "sci-fi" then Rocket
    else if g == "romance" then Heart
    else if g == "thriller" then Knife
    else if g == "aventura" then WorldMap
    else if g == "fantasía" || g == "fantasia" then Mage
    else if g == "animación" || g == "animacion" then Palette
    else if g == "documental" then VideoCamera
    else if g == "musical" then MusicalNote
    else if g == "western" then CowboyHat
    else if g == "crimen" then Detective
    else if g == "misterio" then MagnifyingGlass
    else Clapper
  }

  /**
   * The same table written as a map from each lower-case spelling to its
   * emoji, assembled from six consecutive stretches of the `when` branches.
   */
  const EmojiTable: map<string, string> :=
    EmojiPart1 + EmojiPart2 + EmojiPart3 + EmojiPart4 + EmojiPart5 + EmojiPart6

  const EmojiPart1: map<string, string> := map["acción" := Explosion, "accion" := Explosion, "comedia" := Laughing, "drama" := Masks]
  const EmojiPart2: map<string, string> := map["terror" := Ghost, "horror" := Ghost, "ciencia ficción" := Rocket, "ciencia ficcion" := Rocket, "sci-fi" := Rocket]
  const EmojiPart3: map<string, string> := map["romance" := Heart, "thriller" := Knife, "aventura" := WorldMap]
  const EmojiPart4: map<string, string> := map["fantasía" := Mage, "fantasia" := Mage, "animación" := Palette, "animacion" := Palette]
  const EmojiPart5: map<string, string> := map["documental" := VideoCamera, "musical" := MusicalNote, "western" := CowboyHat]
  const EmojiPart6: map<string, string> := map["crimen" := Detective, "misterio" := MagnifyingGlass]

  lemma EmojiForListed(g: string)
    requires g in EmojiTable
    ensures EmojiFor(g) == EmojiTable[g] != Clapper
  {
    if g in EmojiPart6 {
      EmojiForPart6(g);
    } else if g in EmojiPart5 {
      EmojiForPart5(g);
    } else if g in EmojiPart4 {
      EmojiForPart4(g);
    } else if g in EmojiPart3 {
      EmojiForPart3(g);
    } else if g in EmojiPart2 {
      EmojiForPart2(g);
    } else {
      EmojiForPart1(g);
    }
  }

  lemma EmojiForPart1(g: string)
    requires g in EmojiPart1
    ensures EmojiFor(g) == EmojiPart1[g] != Clapper
  {
  }

  lemma EmojiForPart2(g: string)
    requires g in EmojiPart2
    ensures EmojiFor(g) == EmojiPart2[g] != Clapper
  {
  }

  lemma EmojiForPart3(g: string)
    requires g in EmojiPart3
    ensures EmojiFor(g) == EmojiPart3[g] != Clapper
  {
  }

  lemma EmojiForPart4(g: string)
    requires g in EmojiPart4
    ensures EmojiFor(g) == EmojiPart4[g] != Clapper
  {
  }

  lemma EmojiForPart5(g: string)
    requires g in EmojiPart5
    ensures EmojiFor(g) == EmojiPart5[g] != Clapper
  {
  }

  lemma EmojiForPart6(g: string)
    requires g in EmojiPart6
    ensures EmojiFor(g) == EmojiPart6[g] != Clapper
  {
  }

  lemma EmojiForUnlisted(g: string)
    requires g !in EmojiTable
    ensures EmojiFor(g) == Clapper
  {
  }

  /** Spellings that differ only in case, as `lowercase()` sees it, share an emoji. */
  lemma GenreEmojiSameLowercase(a: string, b: string)
    requires Lowercase(a) == Lowercase(b)
    ensures GenreEmoji(a) == GenreEmoji(b)
  {
  }

  /**
   * Casing does not matter: a genre, its upper-case and its lower-case forms
   * share an emoji. Stated for Latin-1 text without 'µ' and 'ß', the characters
   * on which `uppercase()` and `lowercase()` undo each other.
   */
  lemma GenreEmojiIgnoresCase(genre: string)
    requires forall i :: 0 <= i < |genre| ==> genre[i] < '\U{100}' && genre[i] != '\U{B5}' && genre[i] != '\U{DF}'
    ensures GenreEmoji(Uppercase(genre)) == GenreEmoji(genre)
    ensures GenreEmoji(Lowercase(genre)) == GenreEmoji(genre)
  {
    LowercaseForgetsCase(genre);
    GenreEmojiSameLowercase(Uppercase(genre), genre);
    GenreEmojiSameLowercase(Lowercase(genre), genre);
  }

  /** `getGenresList`: the genres offered in the movie form. */
  function GenresList(): (r: seq<string>)
    ensures |r| == 15
  {
    ["Acción", "Comedia", "Drama", "Terror", "Ciencia Ficción", "Romance", "Thriller",
     "Aventura", "Fantasía", "Animación", "Documental", "Musical", "Western", "Crimen", "Misterio"]
  }

  /** The emoji of each offered genre, position by position. */
  const GenresEmojis: seq<string> :=
    [Explosion, Laughing, Masks, Ghost, Rocket, Heart, Knife, WorldMap,
     Mage, Palette, VideoCamera, MusicalNote, CowboyHat, Detective, MagnifyingGlass]

  /** The offered genres in lower case. */
  const GenresLower: seq<string> :=
    ["acción", "comedia", "drama", "terror", "ciencia ficción", "romance", "thriller",
     "aventura", "fantasía", "animación", "documental", "musical", "western", "crimen", "misterio"]

  lemma GenresListLower1(i: nat)
    requires 0 <= i < 5
    ensures Lowercase(GenresList()[i]) == GenresLower[i]
  {
    if i == 0 {
      assert Lowercase("Acción") == "acción";
    } else if i == 1 {
      assert Lowercase("Comedia") == "comedia";
    } else if i == 2 {
      assert Lowercase("Drama") == "drama";
    } else if i == 3 {
      assert Lowercase("Terror") == "terror";
    } else {
      assert Lowercase("Ciencia Ficción") == "ciencia ficción";
    }
  }

  lemma GenresListLower2(i: nat)
    requires 5 <= i < 10
    ensures Lowercase(GenresList()[i]) == GenresLower[i]
  {
    if i == 5 {
      assert Lowercase("Romance") == "romance";
    } else if i == 6 {
      assert Lowercase("Thriller") == "thriller";
    } else if i == 7 {
      assert Lowercase("Aventura") == "aventura";
    } else if i == 8 {
      assert Lowercase("Fantasía") == "fantasía";
    } else {
      assert Lowercase("Animación") == "animación";
    }
  }

  lemma GenresListLower3(i: nat)
    requires 10 <= i < 15
    ensures Lowercase(GenresList()[i]) == GenresLower[i]
  {
    if i == 10 {
      assert Lowercase("Documental") == "documental";
    } else if i == 11 {
      assert Lowercase("Musical") == "musical";
    } else if i == 12 {
      assert Lowercase("Western") == "western";
    } else if i == 13 {
      assert Lowercase("Crimen") == "crimen";
    } else {
      assert Lowercase("Misterio") == "misterio";
    }
  }

  lemma GenresLowerEmoji1(i: nat)
    requires 0 <= i < 5
    ensures EmojiFor(GenresLower[i]) == GenresEmojis[i]
  {
    if i == 0 {
      assert GenresLower[i] == "acción";
    } else if i == 1 {
      assert GenresLower[i] == "comedia";
    } else if i == 2 {
      assert GenresLower[i] == "drama";
    } else if i == 3 {
      assert GenresLower[i] == "terror";
    } else {
      assert GenresLower[i] == "ciencia ficción";
    }
  }

  lemma GenresLowerEmoji2(i: nat)
    requires 5 <= i < 10
    ensures EmojiFor(GenresLower[i]) == GenresEmojis[i]
  {
    if i == 5 {
      assert GenresLower[i] == "romance";
    } else if i == 6 {
      assert GenresLower[i] == "thriller";
    } else if i == 7 {
      assert GenresLower[i] == "aventura";
    } else if i == 8 {
      assert GenresLower[i] == "fantasía";
    } else {
      assert GenresLower[i] == "animación";
    }
  }

  lemma GenresLowerEmoji3(i: nat)
    requires 10 <= i < 15
    ensures EmojiFor(GenresLower[i]) == GenresEmojis[i]
  {
    if i == 10 {
      assert GenresLower[i] == "documental";
    } else if i == 11 {
      assert GenresLower[i] == "musical";
    } else if i == 12 {
      assert GenresLower[i] == "western";
    } else if i == 13 {
      assert GenresLower[i] == "crimen";
    } else {
      assert GenresLower[i] == "misterio";
    }
  }

  lemma GenresListEmoji(i: nat)
    requires i < 15
    ensures GenreEmoji(GenresList()[i]) == GenresEmojis[i]
  {
    if i < 5 {
      GenresListLower1(i);
      GenresLowerEmoji1(i);
    } else if i < 10 {
      GenresListLower2(i);
      GenresLowerEmoji2(i);
    } else {
      GenresListLower3(i);
      GenresLowerEmoji3(i);
    }
  }

  /**
   * The offered genres are pairwise distinct, none of them falls back to the
   * clapper board, and distinct genres get distinct emojis.
   */
  lemma GenresListDistinct()
    ensures forall i, j :: 0 <= i < j < |GenresList()| ==> GenresList()[i] != GenresList()[j]
    ensures forall i :: 0 <= i < |GenresList()| ==> GenreEmoji(GenresList()[i]) != Clapper
    ensures forall i, j :: 0 <= i < j < |GenresList()| ==> GenreEmoji(GenresList()[i]) != GenreEmoji(GenresList()[j])
  {
    forall i | 0 <= i < 15
      ensures GenreEmoji(GenresList()[i]) == GenresEmojis[i]
    {
      GenresListEmoji(i);
    }
    EmojisDistinct();
    // Distinct emojis already force distinct names.
  }

  lemma EmojisDistinct()
    ensures forall i, j :: 0 <= i < j < |GenresEmojis| ==> GenresEmojis[i] != GenresEmojis[j]
    ensures forall i :: 0 <= i < |GenresEmojis| ==> GenresEmojis[i] != Clapper
  {
  }

  /** `lo..hi` as a list. */
  function IntRange(lo: int, hi: int): (r: seq<int>)
    decreases hi - lo
  {
    if lo > hi then [] else [lo] + IntRange(lo + 1, hi)
  }

  /** `List.reversed()`. */
  function Reversed(s: seq<int>): (r: seq<int>) {
    if s == [] then [] else Reversed(s[1..]) + [s[0]]
  }

  /**
   * `getYearRange`, with the calendar's current year passed in: the current
   * year first, then one year less at each step, down to 1900.
   */
  function YearRange(currentYear: int): (r: seq<int>)
    ensures |r| == if currentYear < 1900 then 0 else currentYear - 1899
    ensures forall i :: 0 <= i < |r| ==> r[i] == currentYear - i
  {
    IntRangeClosedForm(1900, currentYear);
    ReversedIndex(IntRange(1900, currentYear));
    Reversed(IntRange(1900, currentYear))
  }

  lemma {:induction false} IntRangeClosedForm(lo: int, hi: int)
    ensures |IntRange(lo, hi)| == if lo > hi then 0 else hi - lo + 1
    ensures forall i :: 0 <= i < |IntRange(lo, hi)| ==> IntRange(lo, hi)[i] == lo + i
    decreases hi - lo
  {
    if lo <= hi {
      IntRangeClosedForm(lo + 1, hi);
    }
  }

  lemma {:induction false} ReversedIndex(s: seq<int>)
    ensures |Reversed(s)| == |s|
    ensures forall i :: 0 <= i < |s| ==> Reversed(s)[i] == s[|s| - 1 - i]
  {
    if s != [] {
      ReversedIndex(s[1..]);
    }
  }

  /**
   * The years run from the current year down to 1900 in steps of one, so each
   * year of that span appears exactly once; before 1900 the list is empty.
   */
  lemma YearRangeClosedForm(currentYear: int)
    ensures forall y :: y in YearRange(currentYear) <==> 1900 <= y <= currentYear
    ensures forall i, j :: 0 <= i < j < |YearRange(currentYear)| ==> YearRange(currentYear)[i] > YearRange(currentYear)[j]
  {
    var r := YearRange(currentYear);
    forall y | 1900 <= y <= currentYear
      ensures y in r
    {
      assert r[currentYear - y] == y;
    }
  }
}
