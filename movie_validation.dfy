/**
 * `MovieValidation`: one validator per editable field of a movie, each a chain
 * of checks where the first failing check decides the message, and
 * `validateMovie`, which collects the messages of the seven validators in a
 * fixed order.
 */
module MovieValidation {
  import opened Wrappers
  import opened Text

  /** `ValidationResult(isValid, errorMessage = null)`. */
  datatype ValidationResult = ValidationResult(isValid: bool, errorMessage: Option<string> := None)

  /** A result as the validators build it: an error message exactly when not valid. */
  predicate Consistent(r: ValidationResult) {
    r.isValid <==> r.errorMessage.None?
  }

  const TitleBlank := "El título no puede estar vacío"
  const TitleTooShort := "El título debe tener al menos 2 caracteres"
  const TitleTooLong := "El título es demasiado largo (máx. 100 caracteres)"
  const DirectorBlank := "El director no puede estar vacío"
  const DirectorTooShort := "El nombre del director debe tener al menos 2 caracteres"
  const DirectorTooLong := "El nombre es demasiado largo (máx. 50 caracteres)"
  const YearTooOld := "El año no puede ser anterior a 1888 (primera película)"
  const YearTooFuture := "El año no puede ser tan futuro"
  const RatingNegative := "La valoración no puede ser negativa"
  const RatingTooHigh := "La valoración no puede ser mayor a 10"
  const GenreMissing := "Debe seleccionar un género"
  const SynopsisTooLong := "La sinopsis es demasiado larga (máx. 1000 caracteres)"
  const UrlInvalid := "URL no válida"

  function Fail(message: string): (r: ValidationResult)
    ensures Consistent(r) && r.errorMessage == Some(message)
  {
    ValidationResult(false, Some(message))
  }

  const Pass := ValidationResult(true)

  /** `validateTitle`: not blank, then at least 2, then at most 100 characters. */
  function ValidateTitle(title: string): (r: ValidationResult)
    ensures Consistent(r)
    ensures r.isValid <==> !IsBlank(title) && 2 <= |title| <= 100
    ensures IsBlank(title) ==> r.errorMessage == Some(TitleBlank)
    ensures !IsBlank(title) && |title| < 2 ==> r.errorMessage == Some(TitleTooShort)
    ensures !IsBlank(title) && |title| > 100 ==> r.errorMessage == Some(TitleTooLong)
  {
    if IsBlank(title) then Fail(TitleBlank)
    else if |title| < 2 then Fail(TitleTooShort)
    else if |title| > 100 then Fail(TitleTooLong)
    else Pass
  }

  /** `validateDirector`: not blank, then at least 2, then at most 50 characters. */
  function ValidateDirector(director: string): (r: ValidationResult)
    ensures Consistent(r)
    ensures r.isValid <==> !IsBlank(director) && 2 <= |director| <= 50
    ensures IsBlank(director) ==> r.errorMessage == Some(DirectorBlank)
    ensures !IsBlank(director) && |director| < 2 ==> r.errorMessage == Some(DirectorTooShort)
    ensures !IsBlank(director) && |director| > 50 ==> r.errorMessage == Some(DirectorTooLong)
  {
    if IsBlank(director) then Fail(DirectorBlank)
    else if |director| < 2 then Fail(DirectorTooShort)
    else if |director| > 50 then Fail(DirectorTooLong)
    else Pass
  }

  /** `validateYear`, with the calendar's current year passed in. */
  function ValidateYear(year: int, currentYear: int): (r: ValidationResult)
    ensures Consistent(r)
    ensures r.isValid <==> 1888 <= year <= currentYear + 5
    ensures year < 1888 ==> r.errorMessage == Some(YearTooOld)
    ensures 1888 <= year && year > currentYear + 5 ==> r.errorMessage == Some(YearTooFuture)
  {
    if year < 1888 then Fail(YearTooOld)
    else if year > currentYear + 5 then Fail(YearTooFuture)
    else Pass
  }

  /** `validateRating`: between 0 and 10, both included. */
  function ValidateRating(rating: int): (r: ValidationResult)
    ensures Consistent(r)
    ensures r.isValid <==> 0 <= rating <= 10
    ensures rating < 0 ==> r.errorMessage == Some(RatingNegative)
    ensures rating > 10 ==> r.errorMessage == Some(RatingTooHigh)
  {
    if rating < 0 then Fail(RatingNegative)
    else if rating > 10 then Fail(RatingTooHigh)
    else Pass
  }

  /** `validateGenre`: only a blank genre is rejected. */
  function ValidateGenre(genre: string): (r: ValidationResult)
    ensures Consistent(r)
    ensures r.isValid <==> !IsBlank(genre)
    ensures !r.isValid ==> r.errorMessage == Some(GenreMissing)
  {
    if IsBlank(genre) then Fail(GenreMissing) else Pass
  }

  /** `validateSynopsis`: only the length is checked, so an empty synopsis is valid. */
  function ValidateSynopsis(synopsis: string): (r: ValidationResult)
    ensures Consistent(r)
    ensures r.isValid <==> |synopsis| <= 1000
    ensures !r.isValid ==> r.errorMessage == Some(SynopsisTooLong)
  {
    if |synopsis| > 1000 then Fail(SynopsisTooLong) else Pass
  }

  /**
   * `validateUrl`: a blank url is accepted without looking at it; any other url
   * must match the url pattern, given here as `urlMatches`.
   */
  function ValidateUrl(url: string, urlMatches: string -> bool): (r: ValidationResult)
    ensures Consistent(r)
    ensures r.isValid <==> IsBlank(url) || urlMatches(url)
    ensures !r.isValid ==> r.errorMessage == Some(UrlInvalid)
  {
    if IsBlank(url) then Pass
    else if !urlMatches(url) then Fail(UrlInvalid)
    else Pass
  }

  /** A blank url never reaches the pattern: the verdict is the same whatever the pattern. */
  lemma BlankUrlIgnoresPattern(url: string, p: string -> bool, q: string -> bool)
    requires IsBlank(url)
    ensures ValidateUrl(url, p) == ValidateUrl(url, q) == ValidationResult(true, None)
  {
  }

  /** The message of one result, as a list of zero or one entries: what `errorMessage?.let { errors.add(it) }` appends. */
  function Messages(r: ValidationResult): seq<string> {
    if r.errorMessage.Some? then [r.errorMessage.value] else []
  }

  /** The messages of the failing results, in the order of the results. */
  function ErrorMessages(results: seq<ValidationResult>): seq<string> {
    if results == [] then []
    else ErrorMessages(results[..|results| - 1]) + Messages(results[|results| - 1])
  }

  /** Taking one more result appends its message. */
  lemma ErrorMessagesPrefix(results: seq<ValidationResult>, k: nat, errors: seq<string>)
    requires k < |results| && errors == ErrorMessages(results[..k])
    ensures errors + Messages(results[k]) == ErrorMessages(results[..k + 1])
  {
    assert results[..k + 1][..k] == results[..k];
  }

  /** There are no messages exactly when every (consistent) result is valid. */
  lemma {:induction false} ErrorMessagesEmpty(results: seq<ValidationResult>)
    requires forall i :: 0 <= i < |results| ==> Consistent(results[i])
    ensures ErrorMessages(results) == [] <==> forall i :: 0 <= i < |results| ==> results[i].isValid
  {
    if results != [] {
      var init := results[..|results| - 1];
      ErrorMessagesEmpty(init);
      assert forall i :: 0 <= i < |init| ==> init[i] == results[i];
    }
  }

  /** At most one message per result. */
  lemma {:induction false} ErrorMessagesLength(results: seq<ValidationResult>)
    ensures |ErrorMessages(results)| <= |results|
  {
    if results != [] {
      ErrorMessagesLength(results[..|results| - 1]);
    }
  }

  /** Every message comes from a failing result. */
  lemma {:induction false} ErrorMessagesFromResults(results: seq<ValidationResult>, m: string)
    requires m in ErrorMessages(results)
    ensures exists i :: 0 <= i < |results| && results[i].errorMessage == Some(m)
  {
    var init := results[..|results| - 1];
    if m in ErrorMessages(init) {
      ErrorMessagesFromResults(init, m);
      var i :| 0 <= i < |init| && init[i].errorMessage == Some(m);
      assert results[i] == init[i];
    } else {
      assert results[|results| - 1].errorMessage == Some(m);
    }
  }

  /** The seven validators of `validateMovie`, in the order it runs them. */
  function MovieResults(
    title: string, director: string, year: int, genre: string, rating: int,
    synopsis: string, posterUrl: string, currentYear: int, urlMatches: string -> bool): (rs: seq<ValidationResult>)
    ensures |rs| == 7
    ensures forall i :: 0 <= i < |rs| ==> Consistent(rs[i])
  {
    [ValidateTitle(title), ValidateDirector(director), ValidateYear(year, currentYear),
     ValidateGenre(genre), ValidateRating(rating), ValidateSynopsis(synopsis),
     ValidateUrl(posterUrl, urlMatches)]
  }

  /** Every field is acceptable. */
  predicate MovieFieldsValid(
    title: string, director: string, year: int, genre: string, rating: int,
    synopsis: string, posterUrl: string, currentYear: int, urlMatches: string -> bool)
  {
    && !IsBlank(title) && 2 <= |title| <= 100
    && !IsBlank(director) && 2 <= |director| <= 50
    && 1888 <= year <= currentYear + 5
    && !IsBlank(genre)
    && 0 <= rating <= 10
    && |synopsis| <= 1000
    && (IsBlank(posterUrl) || urlMatches(posterUrl))
  }

  /** `validateMovie` reports nothing exactly when every field is acceptable, and at most one message per field. */
  lemma MovieErrors(
    title: string, director: string, year: int, genre: string, rating: int,
    synopsis: string, posterUrl: string, currentYear: int, urlMatches: string -> bool)
    ensures var errors := ErrorMessages(MovieResults(title, director, year, genre, rating, synopsis, posterUrl, currentYear, urlMatches));
      && |errors| <= 7
      && (errors == [] <==> MovieFieldsValid(title, director, year, genre, rating, synopsis, posterUrl, currentYear, urlMatches))
  {
    var rs := MovieResults(title, director, year, genre, rating, synopsis, posterUrl, currentYear, urlMatches);
    ErrorMessagesLength(rs);
    ErrorMessagesEmpty(rs);
    assert (forall i :: 0 <= i < |rs| ==> rs[i].isValid) <==> rs[0].isValid && rs[1].isValid && rs[2].isValid && rs[3].isValid && rs[4].isValid && rs[5].isValid && rs[6].isValid;
  }

  /**
   * `validateMovie`: appends, field by field, the message of each failing
   * validator; the list is empty exactly when every field is acceptable.
   * `synopsis` and `posterUrl` default to empty text as in the Kotlin
   * signature; the calendar year and the URL pattern follow, passed by name.
   */
  method ValidateMovie(
    title: string, director: string, year: int, genre: string, rating: int,
    synopsis: string := "", posterUrl: string := "", currentYear: int, urlMatches: string -> bool)
    returns (errors: seq<string>)
    ensures errors == ErrorMessages(MovieResults(title, director, year, genre, rating, synopsis, posterUrl, currentYear, urlMatches))
    ensures |errors| <= 7
    ensures errors == [] <==> MovieFieldsValid(title, director, year, genre, rating, synopsis, posterUrl, currentYear, urlMatches)
  {
    var r0 := ValidateTitle(title);
    var r1 := ValidateDirector(director);
    var r2 := ValidateYear(year, currentYear);
    var r3 := ValidateGenre(genre);
    var r4 := ValidateRating(rating);
    var r5 := ValidateSynopsis(synopsis);
    var r6 := ValidateUrl(posterUrl, urlMatches);
    var rs := [r0, r1, r2, r3, r4, r5, r6];
    errors := [];
    assert rs[..0] == [];
    ErrorMessagesPrefix(rs, 0, errors);
    errors := errors + Messages(r0);
    ErrorMessagesPrefix(rs, 1, errors);
    errors := errors + Messages(r1);
    ErrorMessagesPrefix(rs, 2, errors);
    errors := errors + Messages(r2);
    ErrorMessagesPrefix(rs, 3, errors);
    errors := errors + Messages(r3);
    ErrorMessagesPrefix(rs, 4, errors);
    errors := errors + Messages(r4);
    ErrorMessagesPrefix(rs, 5, errors);
    errors := errors + Messages(r5);
    ErrorMessagesPrefix(rs, 6, errors);
    errors := errors + Messages(r6);
    assert rs[..7] == rs;
    MovieErrors(title, director, year, genre, rating, synopsis, posterUrl, currentYear, urlMatches);
  }
}
