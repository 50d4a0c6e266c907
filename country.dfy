/** Country normalisation: known spellings and abbreviations to one display name. */
module Country {
  import opened Text

  /** `COUNTRY_MAP`, keyed by trimmed lower-case spelling. */
  const COUNTRY_MAP: map<string, string> := map[
    "us" := "USA", "usa" := "USA", "united states" := "USA",
    "au" := "Australia", "australia" := "Australia",
    "uk" := "UK", "gb" := "UK", "united kingdom" := "UK",
    "ca" := "Canada", "canada" := "Canada",
    "nz" := "New Zealand", "new zealand" := "New Zealand",
    "de" := "Germany", "germany" := "Germany",
    "fr" := "France", "france" := "France",
    "sg" := "Singapore", "singapore" := "Singapore",
    "ie" := "Ireland", "ireland" := "Ireland"
  ]

  /** The display names the table produces. */
  const CANONICAL_COUNTRIES: set<string> :=
    {"USA", "Australia", "UK", "Canada", "New Zealand", "Germany", "France", "Singapore", "Ireland"}

  /**
   * `normalizeCountry`: an empty value is returned as it is; a known spelling
   * becomes its display name; anything else is returned trimmed.
   */
  function NormalizeCountry(raw: string): (r: string)
    ensures raw == [] ==> r == []
    ensures raw != [] && NormalizeKey(raw) !in COUNTRY_MAP ==> r == Trim(raw)
  {
    if raw == [] then raw
    else
      var key := NormalizeKey(raw);
      if key in COUNTRY_MAP then COUNTRY_MAP[key] else Trim(raw)
  }

  /** Every value of the table is one of the display names. */
  lemma TableValuesCanonical()
    ensures forall k :: k in COUNTRY_MAP ==> COUNTRY_MAP[k] in CANONICAL_COUNTRIES
  {
  }

  /** The display names carry no surrounding whitespace. */
  lemma CanonicalTrimmed()
    ensures forall c :: c in CANONICAL_COUNTRIES ==> IsTrimmed(c)
  {
  }

  /** The result is trimmed, and it is either a display name or the trimmed input. */
  lemma NormalizeCountryRange(raw: string)
    ensures IsTrimmed(NormalizeCountry(raw))
    ensures NormalizeCountry(raw) in CANONICAL_COUNTRIES || NormalizeCountry(raw) == Trim(raw)
  {
    TableValuesCanonical();
    CanonicalTrimmed();
  }

  /** A known spelling, in any letter case and with any padding, becomes its display name. */
  lemma KnownSpelling(raw: string)
    requires NormalizeKey(raw) in COUNTRY_MAP
    ensures NormalizeCountry(raw) == COUNTRY_MAP[NormalizeKey(raw)]
  {
    assert "" !in COUNTRY_MAP;
    assert |NormalizeKey(raw)| <= |raw|;
  }

  lemma CanonicalLower1()
    ensures ToLower("USA") == "usa" && ToLower("Australia") == "australia" && ToLower("UK") == "uk"
  {
  }

  lemma CanonicalLower2()
    ensures ToLower("Canada") == "canada" && ToLower("New Zealand") == "new zealand"
    ensures ToLower("Germany") == "germany"
  {
  }

  lemma CanonicalLower3()
    ensures ToLower("France") == "france" && ToLower("Singapore") == "singapore"
    ensures ToLower("Ireland") == "ireland"
  {
  }

  /** The lower-case form of every display name is a spelling that maps back to it. */
  lemma CanonicalLowerInTable()
    ensures forall c :: c in CANONICAL_COUNTRIES ==> ToLower(c) in COUNTRY_MAP && COUNTRY_MAP[ToLower(c)] == c
  {
    CanonicalLower1();
    CanonicalLower2();
    CanonicalLower3();
  }

  /** Every display name is itself a spelling in the table, mapping to itself. */
  lemma CanonicalIsFixed(c: string)
    requires c in CANONICAL_COUNTRIES
    ensures NormalizeKey(c) in COUNTRY_MAP && COUNTRY_MAP[NormalizeKey(c)] == c
  {
    CanonicalTrimmed();
    NormalizeTrimmed(c);
    CanonicalLowerInTable();
  }

  /** Normalising an already normalised country changes nothing. */
  lemma NormalizeCountryIdempotent(raw: string)
    ensures NormalizeCountry(NormalizeCountry(raw)) == NormalizeCountry(raw)
  {
    var r := NormalizeCountry(raw);
    NormalizeCountryRange(raw);
    if r != [] {
      if r in CANONICAL_COUNTRIES {
        CanonicalIsFixed(r);
      } else {
        TrimIdempotent(raw);
        NormalizeKeyIdempotent(raw);
      }
    }
  }

  lemma KeyOfUs()
    ensures NormalizeKey("us") == "us"
  {
    NormalizeTrimmed("us");
    assert ToLower("us") == "us";
  }

  lemma KeyOfUnitedStates()
    ensures NormalizeKey("United States") == "united states"
  {
    NormalizeTrimmed("United States");
    assert ToLower("United States") == "united states";
  }

  lemma KeyOfPaddedUsa()
    ensures NormalizeKey(" USA ") == "usa"
  {
    assert " " + "USA" + " " == " USA ";
    NormalizePadded(" ", "USA", " ");
    assert ToLower("USA") == "usa";
  }

  lemma NarniaParts()
    ensures "  " + "Narnia" + " " == "  Narnia "
    ensures IsTrimmed("Narnia") && ToLower("Narnia") == "narnia"
  {
  }

  lemma NarniaTrim()
    ensures Trim("  Narnia ") == "Narnia"
  {
    NarniaParts();
    TrimPadded("  ", "Narnia", " ");
  }

  lemma NarniaKey()
    ensures NormalizeKey("  Narnia ") == "narnia"
  {
    NarniaParts();
    NormalizePadded("  ", "Narnia", " ");
  }

  lemma UsaEntries()
    ensures "us" in COUNTRY_MAP && COUNTRY_MAP["us"] == "USA"
    ensures "usa" in COUNTRY_MAP && COUNTRY_MAP["usa"] == "USA"
    ensures "united states" in COUNTRY_MAP && COUNTRY_MAP["united states"] == "USA"
  {
  }

  /** "us", " USA " and "United States" all become "USA". */
  lemma UsaSpellings()
    ensures NormalizeCountry("us") == NormalizeCountry(" USA ") == NormalizeCountry("United States") == "USA"
  {
    KeyOfUs();
    KeyOfUnitedStates();
    KeyOfPaddedUsa();
    UsaEntries();
    KnownSpelling("us");
    KnownSpelling(" USA ");
    KnownSpelling("United States");
  }

  /** An unknown name is only trimmed, and an empty value stays empty. */
  lemma UnknownCountry()
    ensures NormalizeCountry("  Narnia ") == "Narnia"
    ensures NormalizeCountry("") == ""
  {
    NarniaTrim();
    NarniaKey();
  }
}
