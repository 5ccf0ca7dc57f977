/**
 * Extraction of the bearer credential from an `Authorization` header value
 * (the authorization scheme of section 2.1 of RFC 6750), as the `/secure`
 * handler performs it before consulting any verifier.
 */
module Bearer {
  import opened Wrappers
  import opened Segments

  /** The ways extraction ends. `IndexError` is the uncaught exception raised
      by `parts[0]` when a non-empty header holds only whitespace. */
  datatype Extraction =
    | MissingHeader
    | InvalidHeaderType
    | TokenMissing
    | InvalidHeaderFormat
    | IndexError
    | Token(token: string)

  /** Python's `str.lower()` on the ASCII letters; other characters are kept. */
  function Lower(s: string): (r: string)
  {
    seq(|s|, i requires 0 <= i < |s| => if 'A' <= s[i] <= 'Z' then (s[i] as int + 32) as char else s[i])
  }

  /** The scheme test `parts[0].lower() == 'bearer'`. */
  predicate IsBearerScheme(w: string) {
    Lower(w) == "bearer"
  }

  /** The scheme test is a letter-by-letter case-insensitive comparison. */
  lemma BearerSchemeIff(w: string)
    ensures IsBearerScheme(w) <==>
      |w| == 6 && forall i :: 0 <= i < 6 ==> w[i] == "bearer"[i] || w[i] == "BEARER"[i]
  {
    if |w| == 6 {
      var lw := Lower(w);
      assert forall i :: 0 <= i < 6 ==> (lw[i] == "bearer"[i] <==> (w[i] == "bearer"[i] || w[i] == "BEARER"[i]));
    }
  }

  /** api/server.py:125-138: the header, absent or present, classified. */
  function Extract(header: Option<string>): (e: Extraction)
    ensures e.Token? ==> IsSegment(e.token)
  {
    if header.None? || header.value == "" then MissingHeader
    else
      var parts := Split(header.value);
      if |parts| == 0 then IndexError
      else if !IsBearerScheme(parts[0]) then InvalidHeaderType
      else if |parts| == 1 then TokenMissing
      else if |parts| > 2 then InvalidHeaderFormat
      else
        WeaveSplit(header.value);
        Token(parts[1])
  }

  /** The header is missing exactly when it is absent or empty. */
  lemma MissingIff(header: Option<string>)
    ensures Extract(header) == MissingHeader <==> header == None || header == Some("")
  {
  }

  /** A non-empty header made only of whitespace crashes the handler. */
  lemma IndexErrorIff(header: Option<string>)
    ensures Extract(header) == IndexError <==>
      header.Some? && header.value != "" && AllSpace(header.value)
  {
    if header.Some? {
      SplitEmpty(header.value);
    }
  }

  /** The scheme is checked before the number of segments: any header whose
      first segment is not `bearer`, however many segments follow, is of the
      wrong type. */
  lemma InvalidHeaderTypeIff(s: string)
    ensures Extract(Some(s)) == InvalidHeaderType <==>
      exists gaps, parts :: Spells(s, gaps, parts) && |parts| >= 1 && !IsBearerScheme(parts[0])
  {
    SpellsIff(s);
  }

  /** The scheme alone, with nothing after it, misses its token. */
  lemma TokenMissingIff(s: string)
    ensures Extract(Some(s)) == TokenMissing <==>
      exists gaps, parts :: Spells(s, gaps, parts) && |parts| == 1 && IsBearerScheme(parts[0])
  {
    SpellsIff(s);
  }

  /** The scheme followed by two or more segments is malformed. */
  lemma InvalidHeaderFormatIff(s: string)
    ensures Extract(Some(s)) == InvalidHeaderFormat <==>
      exists gaps, parts :: Spells(s, gaps, parts) && |parts| > 2 && IsBearerScheme(parts[0])
  {
    SpellsIff(s);
  }

  /** Extraction succeeds exactly on the scheme and one further segment,
      separated and surrounded by any whitespace; the token is that segment. */
  lemma TokenIff(s: string, t: string)
    ensures Extract(Some(s)) == Token(t) <==>
      exists gaps, parts :: Spells(s, gaps, parts) && |parts| == 2 && IsBearerScheme(parts[0]) && parts[1] == t
  {
    SpellsIff(s);
  }

  /** A wrong scheme with nothing after it is of the wrong type ... */
  lemma WrongSchemeAlone()
    ensures Extract(Some("Basic")) == InvalidHeaderType
  {
    assert IsSegment("Basic");
    assert "" + "Basic" + "" == "Basic";
    SplitStep("", "Basic", "");
  }

  /** ... and so is one followed by more segments than a bearer header has. */
  lemma WrongSchemeWithSegments()
    ensures Extract(Some("Basic a b")) == InvalidHeaderType
  {
    assert IsSegment("Basic");
    assert "" + "Basic" + " a b" == "Basic a b";
    SplitStep("", "Basic", " a b");
  }

  /** A whitespace-only header reaches `parts[0]` and crashes. */
  lemma BlankHeaderCrashes()
    ensures Extract(Some("  ")) == IndexError
  {
    IndexErrorIff(Some("  "));
  }
}
