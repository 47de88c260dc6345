/** `Http`: which student group a request comes from, read off its Referer,
    and the two shapes of response body. */
module Http {
  import opened Json

  /** The body `successResponse` / `errorResponse` sends: `{"success": true,
      "data": ...}` or `{"success": false, "errors": [...]}`. Sending it ends
      the script. */
  datatype Response<+T> = Success(data: T) | Failure(errors: seq<string>)

  const HttpHost: string := "http://areasgrupo.alunos.di.fc.ul.pt"
  const HttpsHost: string := "https://areasgrupo.alunos.di.fc.ul.pt"

  /** `/^https?:\/\/areasgrupo\.alunos\.di\.fc\.ul\.pt/`: anchored at the
      start only, so anything may follow the host name. */
  predicate CorrectHost(referer: string) {
    HttpHost <= referer || HttpsHost <= referer
  }

  /** `~ipm` followed by three ASCII digits starts at position `i`. */
  predicate MarkerAt(s: string, i: int) {
    && 0 <= i && i + 7 <= |s|
    && s[i] == '~' && s[i + 1] == 'i' && s[i + 2] == 'p' && s[i + 3] == 'm'
    && IsDigit(s[i + 4]) && IsDigit(s[i + 5]) && IsDigit(s[i + 6])
  }

  /** The leftmost position at or after `from` where `/~ipm(\d{3})/` matches. */
  function FindMarker(s: string, from: nat): (r: Option<nat>)
    ensures r.Some? ==> from <= r.value && MarkerAt(s, r.value)
    ensures r.Some? ==> forall j :: from <= j < r.value ==> !MarkerAt(s, j)
    ensures r.None? ==> forall j :: from <= j ==> !MarkerAt(s, j)
    decreases |s| - from
  {
    if from + 7 > |s| then None
    else if MarkerAt(s, from) then Some(from)
    else FindMarker(s, from + 1)
  }

  /** `(int) $matches[1]` for the three digits of a marker at `i`. */
  function MarkerValue(s: string, i: int): int
    requires MarkerAt(s, i)
  {
    DigitValue(s[i + 4]) * 100 + DigitValue(s[i + 5]) * 10 + DigitValue(s[i + 6])
  }

  /** `Http::getGroup()` as a function of `$_SERVER['HTTP_REFERER']`: null
      for a foreign host; otherwise the number after the first `~ipm`. With
      no such marker `$matches[1]` is unset and `(int) null` is 0. */
  function GetGroup(referer: string): (r: Option<int>)
    ensures r.None? <==> !CorrectHost(referer)
    ensures r.Some? ==> 0 <= r.value <= 999
  {
    if !CorrectHost(referer) then None
    else
      match FindMarker(referer, 0)
      case None => Some(0)
      case Some(i) => Some(MarkerValue(referer, i))
  }

  /** The group is read from the leftmost marker, whatever follows it. */
  lemma GroupFromFirstMarker(referer: string, i: int)
    requires CorrectHost(referer)
    requires MarkerAt(referer, i)
    requires forall j :: 0 <= j < i ==> !MarkerAt(referer, j)
    ensures GetGroup(referer) == Some(MarkerValue(referer, i))
  {
  }

  /** A Referer from the right host without any `~ipmNNN` yields group 0. */
  lemma NoMarkerIsGroupZero(referer: string)
    requires CorrectHost(referer)
    requires forall j :: 0 <= j < |referer| ==> !MarkerAt(referer, j)
    ensures GetGroup(referer) == Some(0)
  {
  }

  /** Every group value comes from a marker or is the default 0. */
  lemma GroupHasSource(referer: string)
    requires GetGroup(referer).Some?
    ensures GetGroup(referer).value == 0
      || exists i :: MarkerAt(referer, i) && GetGroup(referer).value == MarkerValue(referer, i)
  {
  }
}
