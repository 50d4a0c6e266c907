/**
 * The category mapper: two fixed tables from a lower-case line-item item to
 * a money bucket, one for revenue rows and one for expense rows.
 */
module LineItems {
  import opened Wrappers
  import opened Text
  import opened Records

  /** `REVENUE_MAP`: several labels may route to one bucket. */
  const REVENUE_MAP: map<string, RevenueBucket> := map[
    "additional deliverables" := RevenueBucket.AdditionalDeliverables,
    "additional location"     := RevenueBucket.AdditionalDeliverables,
    "creative removed"        := RevenueBucket.Other,
    "deliverables approved"   := RevenueBucket.DeliverablesApproved,
    "extra time on site"      := RevenueBucket.AdditionalDeliverables,
    "fewer deliverables"      := RevenueBucket.AdditionalDeliverables,
    "file"                    := RevenueBucket.Other,
    "last minute reschedule"  := RevenueBucket.LastMinuteReschedule,
    "other"                   := RevenueBucket.Other,
    "project cancelled"       := RevenueBucket.Other,
    "project ordered"         := RevenueBucket.DeliverablesApproved,
    "travel"                  := RevenueBucket.Travel
  ]

  /**
   * `EXPENSE_MAP`. The key written `"\\n"` is the two characters backslash and
   * `n`, not a line break.
   */
  const EXPENSE_MAP: map<string, ExpenseBucket> := map[
    "base amount"             := ExpenseBucket.Base,
    "additional deliverables" := ExpenseBucket.AdditionalDeliverables,
    "last minute reschedule"  := ExpenseBucket.LastMinuteReschedule,
    "travel"                  := ExpenseBucket.Travel,
    "\\n"                     := ExpenseBucket.LastMinuteReschedule,
    "other"                   := ExpenseBucket.Other,
    "additional location"     := ExpenseBucket.AdditionalDeliverables,
    "extra time on site"      := ExpenseBucket.AdditionalDeliverables,
    "fewer deliverables"      := ExpenseBucket.AdditionalDeliverables
  ]

  /** `REVENUE_MAP[item.trim().toLowerCase()]`; `None` for an unmapped item. */
  function RevenueLineItem(item: string): (r: Option<RevenueBucket>)
    ensures r.Some? <==> NormalizeKey(item) in REVENUE_MAP
  {
    var key := NormalizeKey(item);
    if key in REVENUE_MAP then Some(REVENUE_MAP[key]) else None
  }

  /** `EXPENSE_MAP[item.trim().toLowerCase()]`; `None` for an unmapped item. */
  function ExpenseLineItem(item: string): (r: Option<ExpenseBucket>)
    ensures r.Some? <==> NormalizeKey(item) in EXPENSE_MAP
  {
    var key := NormalizeKey(item);
    if key in EXPENSE_MAP then Some(EXPENSE_MAP[key]) else None
  }

  /** A table key that `NormalizeKey` can produce: trimmed and lower-case. */
  predicate IsStoredKey(k: string)
  {
    IsTrimmed(k) && IsLowerCase(k)
  }

  /** Every key of both tables is its own normal form, so each one can be hit by some label. */
  lemma TableKeysNormalized()
    ensures forall k :: k in REVENUE_MAP ==> NormalizeKey(k) == k
    ensures forall k :: k in EXPENSE_MAP ==> NormalizeKey(k) == k
  {
    StoredKeys1();
    StoredKeys2();
    StoredKeys3();
    StoredKeys4();
    StoredKeys5();
    StoredKeys6();
    forall k | k in REVENUE_MAP || k in EXPENSE_MAP
      ensures NormalizeKey(k) == k
    {
      NormalizeKeyFixed(k);
    }
  }

  lemma StoredKeys1()
    ensures IsStoredKey("additional deliverables")
    ensures IsStoredKey("additional location")
  {
  }

  lemma StoredKeys2()
    ensures IsStoredKey("extra time on site")
    ensures IsStoredKey("fewer deliverables")
  {
  }

  lemma StoredKeys3()
    ensures IsStoredKey("last minute reschedule")
    ensures IsStoredKey("other")
    ensures IsStoredKey("travel")
  {
  }

  lemma StoredKeys4()
    ensures IsStoredKey("base amount")
    ensures IsStoredKey("\\n")
    ensures IsStoredKey("file")
  {
  }

  lemma StoredKeys5()
    ensures IsStoredKey("creative removed")
    ensures IsStoredKey("deliverables approved")
  {
  }

  lemma StoredKeys6()
    ensures IsStoredKey("project cancelled")
    ensures IsStoredKey("project ordered")
  {
  }

  /**
   * Lookup ignores case and surrounding whitespace exactly: a label and its
   * normal form land in the same bucket.
   */
  lemma LookupByNormalForm(item: string)
    ensures RevenueLineItem(item) == RevenueLineItem(NormalizeKey(item))
    ensures ExpenseLineItem(item) == ExpenseLineItem(NormalizeKey(item))
  {
    NormalizeKeyIdempotent(item);
  }

  /** Labels with the same normal form land in the same bucket of either table. */
  lemma SameKeySameBucket(a: string, b: string)
    requires NormalizeKey(a) == NormalizeKey(b)
    ensures RevenueLineItem(a) == RevenueLineItem(b)
    ensures ExpenseLineItem(a) == ExpenseLineItem(b)
  {
  }

  lemma LowerExamples()
    ensures ToLower("Random Thing") == "random thing"
    ensures ToLower("travel") == "travel"
    ensures ToLower("Travel") == "travel"
    ensures ToLower("TRAVEL") == "travel"
  {
  }

  lemma TravelKeys()
    ensures NormalizeKey("travel") == "travel"
    ensures NormalizeKey("Travel") == "travel"
    ensures NormalizeKey(" TRAVEL ") == "travel"
  {
    LowerExamples();
    NormalizeTrimmed("travel");
    NormalizeTrimmed("Travel");
    assert " " + "TRAVEL" + " " == " TRAVEL ";
    NormalizePadded(" ", "TRAVEL", " ");
  }

  /** "travel", "Travel" and " TRAVEL " all route to the travel bucket of either table. */
  lemma TravelSpellings()
    ensures RevenueLineItem("travel") == RevenueLineItem("Travel") == RevenueLineItem(" TRAVEL ")
              == Some(RevenueBucket.Travel)
    ensures ExpenseLineItem("travel") == ExpenseLineItem("Travel") == ExpenseLineItem(" TRAVEL ")
              == Some(ExpenseBucket.Travel)
  {
    TravelKeys();
    SameKeySameBucket("travel", "Travel");
    SameKeySameBucket("travel", " TRAVEL ");
  }

  /** An unmapped label yields no bucket in either table. */
  lemma UnmappedLabel()
    ensures RevenueLineItem("Random Thing") == None
    ensures ExpenseLineItem("Random Thing") == None
  {
    NormalizeTrimmed("Random Thing");
    LowerExamples();
  }

  /** Four distinct keys route to the one additional-deliverables bucket of the revenue table. */
  lemma RevenueManyToOne(item: string)
    ensures RevenueLineItem(item) == Some(RevenueBucket.AdditionalDeliverables) <==>
      NormalizeKey(item) in {"additional deliverables", "additional location", "extra time on site", "fewer deliverables"}
  {
  }

  /** The expense table routes the two-character label backslash-n to last-minute reschedule. */
  lemma ExpenseBackslashN(item: string)
    ensures ExpenseLineItem(item) == Some(ExpenseBucket.LastMinuteReschedule) <==>
      NormalizeKey(item) in {"last minute reschedule", "\\n"}
  {
  }
}
