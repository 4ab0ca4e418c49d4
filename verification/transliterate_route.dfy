/** The `/api/convert` routes: the input limits and mode dispatch of a
    single conversion, and the per-item handling and summary of a batch. */
module TransliterateRoute {
  import opened Wrappers
  import opened Text
  import opened Scripts
  import opened Transliteration

  /** The longest text a single conversion accepts. */
  const MaxText: nat := 100000
  /** The most texts a batch accepts. */
  const MaxBatch: nat := 100
  /** The longest text a batch converts. */
  const MaxBatchItem: nat := 10000

  const TextRequired := "Matn kiritilishi shart"
  const TextTooLong := "Matn juda uzun (maksimal 100,000 belgi)"
  const UnknownMode := "Noto'g'ri rejim. Foydalaning: auto, toLatin, toCyrillic"
  const TextsRequired := "Matnlar massivi kiritilishi shart"
  const TooManyTexts := "Juda ko'p matn (maksimal 100 ta)"

  /** `const { mode = "auto" } = req.body`: the default replaces only a
      missing mode, not `null` or an empty string. */
  function ModeOf(mode: Value): Value {
    if mode.Missing? then Str("auto") else mode
  }

  /** "auto", "toLatin" and "toCyrillic". */
  predicate KnownMode(mode: Value) {
    mode == Str("auto") || mode == Str("toLatin") || mode == Str("toCyrillic")
  }

  /** The three modes both routes know: "auto" detects the alphabet,
      "toLatin" and "toCyrillic" force the direction. Any other mode
      selects nothing. */
  function Dispatch(text: string, mode: Value): (r: Option<Conversion>)
    ensures r.Some? <==> KnownMode(mode)
  {
    if mode == Str("auto") then Some(AutoTransliterate(text))
    else if mode == Str("toLatin") then Some(Conversion(CyrToLat(text), Cyrillic, Latin, None))
    else if mode == Str("toCyrillic") then Some(Conversion(LatToCyr(text), Latin, Cyrillic, None))
    else None
  }

  // ---------------------------------------------------------------------
  // POST /

  /** The reply of a single conversion: the converted text with its
      direction and the mode as sent, or a 400 error. */
  datatype Reply =
    | Converted(original: string, converted: string, from: Script, to: Script, mode: Value, message: Option<string>)
    | BadRequest(error: string)

  /** `POST /`: a missing, empty or non-string text is refused, then a text
      over 100000 characters, then an unknown mode. */
  function Convert(text: Value, mode: Value): (r: Reply)
    ensures r.BadRequest? <==>
      !IsNonEmptyString(text) || |text.s| > MaxText || Dispatch(text.s, ModeOf(mode)).None?
    ensures !IsNonEmptyString(text) ==> r == BadRequest(TextRequired)
    ensures IsNonEmptyString(text) && |text.s| > MaxText ==> r == BadRequest(TextTooLong)
    ensures r.Converted? ==> r.original == text.s && r.mode == ModeOf(mode)
  {
    if !IsNonEmptyString(text) then BadRequest(TextRequired)
    else if |text.s| > MaxText then BadRequest(TextTooLong)
    else
      match Dispatch(text.s, ModeOf(mode))
      case None => BadRequest(UnknownMode)
      case Some(c) => Converted(text.s, c.result, c.from, c.to, ModeOf(mode), c.message)
  }

  /** What each mode does with an acceptable text: no mode means "auto",
      which is `autoTransliterate`; "toLatin" and "toCyrillic" are the forced
      conversions, the same as `manualTransliterate` gives; every other mode,
      `null` included, is refused. */
  lemma {:induction false} ConvertModes(text: string, mode: Value)
    requires text != "" && |text| <= MaxText
    ensures mode.Missing? || mode == Str("auto") ==>
      var a := AutoTransliterate(text);
      Convert(Str(text), mode) == Converted(text, a.result, a.from, a.to, Str("auto"), a.message)
    ensures mode == Str("toLatin") ==>
      Convert(Str(text), mode) == Converted(text, ManualTransliterate(text, "toLatin"), Cyrillic, Latin, mode, None)
    ensures mode == Str("toCyrillic") ==>
      Convert(Str(text), mode) == Converted(text, ManualTransliterate(text, "toCyrillic"), Latin, Cyrillic, mode, None)
    ensures !mode.Missing? && !KnownMode(mode) ==>
      Convert(Str(text), mode) == BadRequest(UnknownMode)
  {
  }

  /** A forced direction is applied whatever alphabet the text is in: Latin
      text sent "toLatin" still goes through the Cyrillic table. */
  lemma {:induction false} ForcedIgnoresDetection()
    ensures Convert(Str("ab"), Str("toLatin")).converted == "ab"
    ensures Convert(Str("ab"), Str("toLatin")).from == Cyrillic
  {
    assert CyrillicToLatinTable('a').None? && CyrillicToLatinTable('b').None?;
    CyrillicSingleStep('b', "");
    CyrillicSingleStep('a', "b");
    assert ['b'] + "" == "b" && ['a'] + "b" == "ab";
  }

  // ---------------------------------------------------------------------
  // POST /batch

  /** One entry of a batch's results. */
  datatype BatchItem =
    | NotAString(index: nat, value: Value)
    | TooLong(index: nat, excerpt: string)
    | Done(index: nat, original: string, converted: string, from: Script, to: Script)
    | Failed(index: nat, excerpt: string)
  {
    /** `r.success`: only a conversion counts as a success. */
    predicate Success() { Done? }
  }

  /** The entry for the text at `index`: a non-string is recorded as such;
      a text over 10000 characters is recorded with its first 100 characters
      and "..."; otherwise it is converted. With an unknown mode nothing is
      converted and reading the missing result fails, which the route
      records as a failure with the first 100 characters. */
  function BatchItemFor(index: nat, text: Value, mode: Value): (r: BatchItem)
    ensures r.index == index
  {
    if !text.Str? then NotAString(index, text)
    else if |text.s| > MaxBatchItem then TooLong(index, text.s[..100] + "...")
    else
      match Dispatch(text.s, mode)
      case None => Failed(index, Prefix(text.s, 100))
      case Some(c) => Done(index, text.s, c.result, c.from, c.to)
  }

  /** `results.filter((r) => r.success).length` */
  function SuccessCount(results: seq<BatchItem>): (n: nat)
    ensures n <= |results|
  {
    if results == [] then 0
    else SuccessCount(results[..|results| - 1]) + (if results[|results| - 1].Success() then 1 else 0)
  }

  /** Every entry is a success exactly when the count is the number of
      entries, and none is exactly when the count is zero. */
  lemma {:induction false} SuccessCountBounds(results: seq<BatchItem>)
    ensures SuccessCount(results) == |results| <==> forall k :: 0 <= k < |results| ==> results[k].Success()
    ensures SuccessCount(results) == 0 <==> forall k :: 0 <= k < |results| ==> !results[k].Success()
  {
    if results != [] {
      var init := results[..|results| - 1];
      SuccessCountBounds(init);
      assert forall k :: 0 <= k < |init| ==> init[k] == results[k];
    }
  }

  /** The reply of a batch: a 400 error, or the entries with the summary. */
  datatype BatchReply =
    | BatchRejected(error: string)
    | BatchDone(results: seq<BatchItem>, total: nat, successful: nat, failed: int, mode: Value)

  /** `POST /batch`: the guards on `texts`, then one entry per text in
      order, then the summary counts. */
  method Batch(texts: Value, mode: Value) returns (r: BatchReply)
    ensures !texts.Arr? || texts.items == [] <==> r == BatchRejected(TextsRequired)
    ensures texts.Arr? && |texts.items| > MaxBatch ==> r == BatchRejected(TooManyTexts)
    ensures r.BatchDone? <==> texts.Arr? && 0 < |texts.items| <= MaxBatch
    ensures r.BatchDone? ==>
      && |r.results| == |texts.items|
      && (forall k :: 0 <= k < |r.results| ==> r.results[k] == BatchItemFor(k, texts.items[k], ModeOf(mode)))
      && r.total == |texts.items|
      && r.successful == SuccessCount(r.results)
      && r.successful + r.failed == r.total
      && r.failed >= 0
      && r.mode == ModeOf(mode)
  {
    if !texts.Arr? || |texts.items| == 0 {
      return BatchRejected(TextsRequired);
    }
    if |texts.items| > MaxBatch {
      return BatchRejected(TooManyTexts);
    }
    var m := ModeOf(mode);
    var results: seq<BatchItem> := [];
    for i := 0 to |texts.items|
      invariant |results| == i
      invariant forall k :: 0 <= k < i ==> results[k] == BatchItemFor(k, texts.items[k], m)
    {
      var text := texts.items[i];
      if !text.Str? {
        results := results + [NotAString(i, text)];
        continue;
      }
      if |text.s| > MaxBatchItem {
        results := results + [TooLong(i, text.s[..100] + "...")];
        continue;
      }
      var result := Dispatch(text.s, m);
      if result.Some? {
        results := results + [Done(i, text.s, result.value.result, result.value.from, result.value.to)];
      } else {
        results := results + [Failed(i, Prefix(text.s, 100))];
      }
    }
    var successCount := SuccessCount(results);
    r := BatchDone(results, |texts.items|, successCount, |texts.items| - successCount, m);
  }

  /** With a known mode every text succeeds exactly when every item is a
      string of at most 10000 characters. */
  lemma {:induction false} AllSucceed(items: seq<Value>, mode: Value, results: seq<BatchItem>)
    requires KnownMode(mode)
    requires |results| == |items|
    requires forall k :: 0 <= k < |items| ==> results[k] == BatchItemFor(k, items[k], mode)
    ensures SuccessCount(results) == |items| <==>
      forall k :: 0 <= k < |items| ==> items[k].Str? && |items[k].s| <= MaxBatchItem
  {
    SuccessCountBounds(results);
  }

  /** An unknown mode does not refuse the batch, but no text succeeds. */
  lemma {:induction false} UnknownModeFailsAll(items: seq<Value>, mode: Value, results: seq<BatchItem>)
    requires !KnownMode(mode)
    requires |results| == |items|
    requires forall k :: 0 <= k < |items| ==> results[k] == BatchItemFor(k, items[k], mode)
    ensures SuccessCount(results) == 0
    ensures forall k :: 0 <= k < |items| && items[k].Str? && |items[k].s| <= MaxBatchItem ==>
      results[k] == Failed(k, Prefix(items[k].s, 100))
  {
    SuccessCountBounds(results);
  }

  /** A text that the single route converts gets the same conversion in a
      batch; the batch also converts the empty text, which the single route
      refuses. */
  lemma {:induction false} BatchAgreesWithSingle(index: nat, text: string, mode: Value)
    requires |text| <= MaxBatchItem
    requires KnownMode(ModeOf(mode))
    ensures var b := BatchItemFor(index, Str(text), ModeOf(mode));
      b.Done? && (text != "" ==>
        var c := Convert(Str(text), mode);
        c.Converted? && b.converted == c.converted && b.from == c.from && b.to == c.to)
    ensures text == "" ==> Convert(Str(text), mode) == BadRequest(TextRequired)
  {
  }
}
