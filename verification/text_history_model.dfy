/** The history record of a user's request: its schema enumerations, the
    `preview` virtual, the pre-save length guard, the query
    `getUserHistory` builds, and the millisecond branch of `getDuration`. */
module TextHistoryModel {
  import opened Wrappers
  import opened Text
  import opened Validators
  import opened Pagination

  const HistoryActions: seq<string> := ["spellCheck", "correctText", "transliterate", "documentGenerator", "generateSong"]
  const HistoryLanguages: seq<string> := ["uz", "kaa", "ru"]
  const HistoryScripts: seq<string> := ["latin", "cyrillic"]

  /** `input.text` maxlength, and the limit of the pre-save guard. */
  const MaxInputText: nat := 10000

  const DocumentStyles: seq<string> := ["professional", "academic", "literary", "formal", "friendly", "humorous"]
  const SongStyles: seq<string> := ["classik", "rep", "adabiy", "dardli", "hkz"]

  /** The schema's constraints on a record's action and input: a known
      action, a required input text of at most 10000 characters, a known
      language and script, and a style, level and song style that are either
      unset (`null`) or known, the level in 1..5. */
  predicate SchemaValid(action: string, text: string, language: string, script: string,
                        style: Option<string>, level: Option<int>, songStyle: Option<string>) {
    && action in HistoryActions
    && text != "" && |text| <= MaxInputText
    && language in HistoryLanguages
    && script in HistoryScripts
    && (style.Some? ==> style.value in DocumentStyles)
    && (level.Some? ==> 1 <= level.value <= 5)
    && (songStyle.Some? ==> songStyle.value in SongStyles)
  }

  const PreviewLength: nat := 100

  /** The `preview` virtual: the text itself up to 100 characters, otherwise
      its first 100 characters followed by "...". */
  function Preview(text: string): (r: string)
    ensures |text| <= PreviewLength ==> r == text
    ensures |text| > PreviewLength ==> |r| == PreviewLength + 3 && r[PreviewLength..] == "..."
  {
    if |text| > PreviewLength then text[..PreviewLength] + "..." else text
  }

  /** A long text's preview keeps its first 100 characters; a preview of a
      preview is the same preview. */
  lemma {:induction false} PreviewProperties(text: string)
    ensures |text| > PreviewLength ==> Preview(text)[..PreviewLength] == text[..PreviewLength]
    ensures Preview(Preview(text)) == Preview(text)
  {
    if |text| > PreviewLength {
      var p := Preview(text);
      assert p[..PreviewLength] == text[..PreviewLength];
    }
  }

  const TooLongMessage := "Matn juda uzun"

  /** The pre-save hook: an input text over 10000 characters stops the save
      with an error; a missing or empty text passes. */
  function PreSave(text: Option<string>): (r: Option<string>)
    ensures r.Some? ==> r.value == TooLongMessage
  {
    if text.Some? && text.value != "" && |text.value| > MaxInputText then Some(TooLongMessage) else None
  }

  /** The hook lets through exactly the texts the schema's maxlength allows. */
  lemma {:induction false} PreSaveAgreesWithSchema(text: string)
    ensures PreSave(Some(text)).None? <==> |text| <= MaxInputText
  {
  }

  /** Every record the schema accepts passes the hook, and the hook refuses
      only texts the schema refuses too. */
  lemma {:induction false} ValidRecordSaves(action: string, text: string, language: string, script: string,
                                            style: Option<string>, level: Option<int>, songStyle: Option<string>)
    ensures SchemaValid(action, text, language, script, style, level, songStyle) ==> PreSave(Some(text)).None?
    ensures PreSave(Some(text)).Some? ==> !SchemaValid(action, text, language, script, style, level, songStyle)
  {
    PreSaveAgreesWithSchema(text);
  }

  /** A sanitised text is always short enough to save. */
  lemma {:induction false} SanitizedTextSaves(text: Option<string>)
    ensures PreSave(Some(SanitizeText(text))).None?
  {
    if text.Some? && text.value != "" {
      SanitizeTextShape(text.value);
    }
  }

  /** The options `getUserHistory` takes; `None` is an option that was not
      passed, so its default applies. A limit or page may be NaN. */
  datatype HistoryOptions = HistoryOptions(
    action: Option<string>, limit: Option<Option<int>>, page: Option<Option<int>>,
    sortBy: Option<string>, sortOrder: Option<int>)

  /** The query sent to the store: the user, the action filter if any, the
      sort, and the window. */
  datatype HistoryQuery = HistoryQuery(
    user: string, action: Option<string>, sortBy: string, sortOrder: int, skip: Option<int>, limit: Option<int>)

  /** `getUserHistory(userId, options)`: defaults limit 50, page 1, sort by
      createdAt descending; the action filter only for a non-empty action;
      `skip = (page - 1) * limit`. */
  function GetUserHistory(userId: string, options: HistoryOptions): (q: HistoryQuery)
    ensures q.user == userId
    ensures q.action.Some? <==> options.action.Some? && options.action.value != ""
    ensures q.action.Some? ==> q.action == options.action
  {
    var limit := options.limit.GetOr(Some(50));
    var page := options.page.GetOr(Some(1));
    HistoryQuery(
      userId,
      if options.action.Some? && options.action.value != "" then options.action else None,
      options.sortBy.GetOr("createdAt"),
      options.sortOrder.GetOr(-1),
      Skip(page, limit),
      limit)
  }

  /** With no options the newest 50 records of the user are asked for. */
  lemma {:induction false} DefaultHistoryQuery(userId: string)
    ensures GetUserHistory(userId, HistoryOptions(None, None, None, None, None))
         == HistoryQuery(userId, None, "createdAt", -1, Some(0), Some(50))
  {
  }

  /** Page `page` of size `limit` starts right after the previous page ends. */
  lemma {:induction false} ConsecutivePages(userId: string, action: Option<string>, page: int, limit: int)
    ensures var q1 := GetUserHistory(userId, HistoryOptions(action, Some(Some(limit)), Some(Some(page)), None, None));
      var q2 := GetUserHistory(userId, HistoryOptions(action, Some(Some(limit)), Some(Some(page + 1)), None, None));
      q2.skip.value == q1.skip.value + limit
  {
  }

  const UnknownDuration := "Noma'lum"

  /** `getDuration` for a missing or zero processing time and for times
      under a second. Longer times are rendered in seconds with two
      decimals, which this model leaves out (`None`). */
  function GetDuration(processingTime: Option<int>): (r: Option<string>)
    ensures r.None? <==> processingTime.Some? && processingTime.value >= 1000
  {
    if processingTime.None? || processingTime.value == 0 then Some(UnknownDuration)
    else if processingTime.value < 1000 then Some(IntToString(processingTime.value) + "ms")
    else None
  }

  /** A time under a second is rendered as its decimal value followed by
      "ms", from which `parseInt` reads the time back. */
  lemma {:induction false} DurationReadsBack(ms: int)
    requires ms != 0 && ms < 1000
    ensures GetDuration(Some(ms)).Some?
    ensures var d := GetDuration(Some(ms)).value;
      d != UnknownDuration && |d| >= 3 && d[|d| - 2..] == "ms" && ParseInt(d) == Some(ms)
  {
    ParseIntOfRendering(ms, "ms");
    var d := IntToString(ms) + "ms";
    assert d[|d| - 2..] == "ms";
    assert d[0] != 'N' by {
      if ms < 0 { assert d[0] == '-'; } else { assert IsDigit(d[0]); }
    }
  }
}
