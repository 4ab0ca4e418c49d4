/** The Karakalpak transliterator: two single-letter tables, a handful of
    two-letter combinations tried first, a left-to-right scan in each
    direction, and a script detector that picks the direction. */
module Transliteration {
  import opened Wrappers
  import opened Scripts

  // ---------------------------------------------------------------------
  // Tables

  /** `CYRILLIC_TO_LATIN[c]`, or `None` when the table has no entry. */
  function CyrillicToLatinTable(c: char): Option<string>
  {
    match c
    case 'а' => Some("a")   case 'А' => Some("A")
    case 'ә' => Some("ә")   case 'Ә' => Some("Ә")
    case 'б' => Some("b")   case 'Б' => Some("B")
    case 'в' => Some("v")   case 'В' => Some("V")
    case 'г' => Some("g")   case 'Г' => Some("G")
    case 'ғ' => Some("ğ")   case 'Ғ' => Some("Ğ")
    case 'д' => Some("d")   case 'Д' => Some("D")
    case 'е' => Some("e")   case 'Е' => Some("E")
    case 'ж' => Some("j")   case 'Ж' => Some("J")
    case 'з' => Some("z")   case 'З' => Some("Z")
    case 'и' => Some("ı")   case 'И' => Some("I")
    case 'й' => Some("y")   case 'Й' => Some("Y")
    case 'к' => Some("k")   case 'К' => Some("K")
    case 'қ' => Some("q")   case 'Қ' => Some("Q")
    case 'л' => Some("l")   case 'Л' => Some("L")
    case 'м' => Some("m")   case 'М' => Some("M")
    case 'н' => Some("n")   case 'Н' => Some("N")
    case 'ң' => Some("ń")   case 'Ң' => Some("Ń")
    case 'о' => Some("o")   case 'О' => Some("O")
    case 'ө' => Some("ö")   case 'Ө' => Some("Ö")
    case 'п' => Some("p")   case 'П' => Some("P")
    case 'р' => Some("r")   case 'Р' => Some("R")
    case 'с' => Some("s")   case 'С' => Some("S")
    case 'т' => Some("t")   case 'Т' => Some("T")
    case 'у' => Some("w")   case 'У' => Some("W")
    case 'ү' => Some("ü")   case 'Ү' => Some("Ü")
    case 'ф' => Some("f")   case 'Ф' => Some("F")
    case 'х' => Some("x")   case 'Х' => Some("X")
    case 'ц' => Some("ts")  case 'Ц' => Some("Ts")
    case 'ч' => Some("sh")  case 'Ч' => Some("Sh")
    case 'ш' => Some("ş")   case 'Ш' => Some("Ş")
    case 'щ' => Some("şsh") case 'Щ' => Some("Şsh")
    case 'ъ' => Some("")    case 'Ъ' => Some("")
    case 'ы' => Some("ı")   case 'Ы' => Some("I")
    case 'ь' => Some("")    case 'Ь' => Some("")
    case 'э' => Some("e")   case 'Э' => Some("E")
    case 'ю' => Some("yu")  case 'Ю' => Some("Yu")
    case 'я' => Some("ya")  case 'Я' => Some("Ya")
    case _ => None
  }

  /** `LATIN_TO_CYRILLIC[c]`, or `None` when the table has no entry. */
  function LatinToCyrillicTable(c: char): Option<string>
  {
    match c
    case 'a' => Some("а")   case 'A' => Some("А")
    case 'ә' => Some("ә")   case 'Ә' => Some("Ә")
    case 'b' => Some("б")   case 'B' => Some("Б")
    case 'v' => Some("в")   case 'V' => Some("В")
    case 'g' => Some("г")   case 'G' => Some("Г")
    case 'ğ' => Some("ғ")   case 'Ğ' => Some("Ғ")
    case 'd' => Some("д")   case 'D' => Some("Д")
    case 'e' => Some("е")   case 'E' => Some("Е")
    case 'j' => Some("ж")   case 'J' => Some("Ж")
    case 'z' => Some("з")   case 'Z' => Some("З")
    case 'ı' => Some("и")   case 'I' => Some("И")
    case 'i' => Some("и")
    case 'y' => Some("й")   case 'Y' => Some("Й")
    case 'k' => Some("к")   case 'K' => Some("К")
    case 'q' => Some("қ")   case 'Q' => Some("Қ")
    case 'l' => Some("л")   case 'L' => Some("Л")
    case 'm' => Some("м")   case 'M' => Some("М")
    case 'n' => Some("н")   case 'N' => Some("Н")
    case 'ń' => Some("ң")   case 'Ń' => Some("Ң")
    case 'o' => Some("о")   case 'O' => Some("О")
    case 'ö' => Some("ө")   case 'Ö' => Some("Ө")
    case 'p' => Some("п")   case 'P' => Some("П")
    case 'r' => Some("р")   case 'R' => Some("Р")
    case 's' => Some("с")   case 'S' => Some("С")
    case 't' => Some("т")   case 'T' => Some("Т")
    case 'w' => Some("у")   case 'W' => Some("У")
    case 'ü' => Some("ү")   case 'Ü' => Some("Ү")
    case 'f' => Some("ф")   case 'F' => Some("Ф")
    case 'x' => Some("х")   case 'X' => Some("Х")
    case 'ş' => Some("ш")   case 'Ş' => Some("Ш")
    case _ => None
  }

  /** The two-letter Cyrillic combinations tried before the table. */
  function CyrillicDigraph(a: char, b: char): Option<string>
  {
    if a == 'т' && b == 'с' then Some("ts")
    else if a == 'Т' && b == 'с' then Some("Ts")
    else if a == 'с' && b == 'х' then Some("sh")
    else if a == 'С' && b == 'х' then Some("Sh")
    else None
  }

  /** The two-letter Latin combinations tried before the table. */
  function LatinDigraph(a: char, b: char): Option<string>
  {
    if a == 't' && b == 's' then Some("ц")
    else if a == 'T' && b == 's' then Some("Ц")
    else if a == 's' && b == 'h' then Some("ч")
    else if a == 'S' && b == 'h' then Some("Ч")
    else if a == 'y' && b == 'u' then Some("ю")
    else if a == 'Y' && b == 'u' then Some("Ю")
    else if a == 'y' && b == 'a' then Some("я")
    else if a == 'Y' && b == 'a' then Some("Я")
    else None
  }

  /** One character through the table: its entry, or the character itself. */
  function CyrillicLetter(c: char): string {
    match CyrillicToLatinTable(c)
    case Some(s) => s
    case None => [c]
  }

  function LatinLetter(c: char): string {
    match LatinToCyrillicTable(c)
    case Some(s) => s
    case None => [c]
  }

  // ---------------------------------------------------------------------
  // The conversions, as functions of the whole text

  /** What `cyrillicToLatin` produces: at each position a digraph if one
      starts there, otherwise one character through the table. */
  function CyrToLat(t: string): string
    decreases |t|
  {
    if t == [] then ""
    else if |t| >= 2 && CyrillicDigraph(t[0], t[1]).Some? then
      CyrillicDigraph(t[0], t[1]).value + CyrToLat(t[2..])
    else CyrillicLetter(t[0]) + CyrToLat(t[1..])
  }

  /** What `latinToCyrillic` produces. */
  function LatToCyr(t: string): string
    decreases |t|
  {
    if t == [] then ""
    else if |t| >= 2 && LatinDigraph(t[0], t[1]).Some? then
      LatinDigraph(t[0], t[1]).value + LatToCyr(t[2..])
    else LatinLetter(t[0]) + LatToCyr(t[1..])
  }

  // ---------------------------------------------------------------------
  // The scanning loops

  /** One step of `cyrillicToLatin`'s scan at position `i`: the digraph
      starting there, or one character through the table, and where the
      scan goes on. */
  method CyrillicStep(text: string, i: nat) returns (piece: string, next: nat)
    requires i < |text|
    ensures next == i + 1 || next == i + 2
    ensures next <= |text|
    ensures piece + CyrToLat(text[next..]) == CyrToLat(text[i..])
  {
    CyrToLatAt(text, i);
    if i + 1 < |text| {
      var pair := CyrillicDigraph(text[i], text[i + 1]);
      if pair.Some? {
        return pair.value, i + 2;
      }
    }
    return CyrillicLetter(text[i]), i + 1;
  }

  /** One step of `latinToCyrillic`'s scan. */
  method LatinStep(text: string, i: nat) returns (piece: string, next: nat)
    requires i < |text|
    ensures next == i + 1 || next == i + 2
    ensures next <= |text|
    ensures piece + LatToCyr(text[next..]) == LatToCyr(text[i..])
  {
    LatToCyrAt(text, i);
    if i + 1 < |text| {
      var pair := LatinDigraph(text[i], text[i + 1]);
      if pair.Some? {
        return pair.value, i + 2;
      }
    }
    return LatinLetter(text[i]), i + 1;
  }

  /** `cyrillicToLatin`: scans with an index that advances by two after a
      digraph and by one otherwise. */
  method CyrillicToLatin(text: string) returns (result: string)
    ensures result == CyrToLat(text)
  {
    result := "";
    var i := 0;
    while i < |text|
      invariant 0 <= i <= |text|
      invariant result + CyrToLat(text[i..]) == CyrToLat(text)
      decreases |text| - i
    {
      var piece, next := CyrillicStep(text, i);
      result := result + piece;
      i := next;
    }
    assert text[i..] == [];
  }

  /** `latinToCyrillic` */
  method LatinToCyrillic(text: string) returns (result: string)
    ensures result == LatToCyr(text)
  {
    result := "";
    var i := 0;
    while i < |text|
      invariant 0 <= i <= |text|
      invariant result + LatToCyr(text[i..]) == LatToCyr(text)
      decreases |text| - i
    {
      var piece, next := LatinStep(text, i);
      result := result + piece;
      i := next;
    }
    assert text[i..] == [];
  }

  // ---------------------------------------------------------------------
  // One step of each scan

  /** The conversion of a suffix: a digraph if one starts there, otherwise
      one character through the table, then the conversion of the rest. */
  lemma {:induction false} CyrToLatAt(text: string, i: nat)
    requires i < |text|
    ensures CyrToLat(text[i..]) ==
      if i + 1 < |text| && CyrillicDigraph(text[i], text[i + 1]).Some?
      then CyrillicDigraph(text[i], text[i + 1]).value + CyrToLat(text[i + 2..])
      else CyrillicLetter(text[i]) + CyrToLat(text[i + 1..])
  {
    var rest := text[i..];
    assert rest[1..] == text[i + 1..];
    if i + 1 < |text| {
      assert rest[2..] == text[i + 2..];
    }
  }

  lemma {:induction false} LatToCyrAt(text: string, i: nat)
    requires i < |text|
    ensures LatToCyr(text[i..]) ==
      if i + 1 < |text| && LatinDigraph(text[i], text[i + 1]).Some?
      then LatinDigraph(text[i], text[i + 1]).value + LatToCyr(text[i + 2..])
      else LatinLetter(text[i]) + LatToCyr(text[i + 1..])
  {
    var rest := text[i..];
    assert rest[1..] == text[i + 1..];
    if i + 1 < |text| {
      assert rest[2..] == text[i + 2..];
    }
  }

  lemma {:induction false} CyrillicPairStep(a: char, b: char, t: string)
    requires CyrillicDigraph(a, b).Some?
    ensures CyrToLat([a, b] + t) == CyrillicDigraph(a, b).value + CyrToLat(t)
  {
    assert ([a, b] + t)[2..] == t;
  }

  lemma {:induction false} CyrillicSingleStep(c: char, t: string)
    requires t == [] || CyrillicDigraph(c, t[0]).None?
    ensures CyrToLat([c] + t) == CyrillicLetter(c) + CyrToLat(t)
  {
    assert ([c] + t)[1..] == t;
  }

  lemma {:induction false} LatinPairStep(a: char, b: char, t: string)
    requires LatinDigraph(a, b).Some?
    ensures LatToCyr([a, b] + t) == LatinDigraph(a, b).value + LatToCyr(t)
  {
    assert ([a, b] + t)[2..] == t;
  }

  lemma {:induction false} LatinSingleStep(c: char, t: string)
    requires t == [] || LatinDigraph(c, t[0]).None?
    ensures LatToCyr([c] + t) == LatinLetter(c) + LatToCyr(t)
  {
    assert ([c] + t)[1..] == t;
  }

  // ---------------------------------------------------------------------
  // Properties of the conversions

  /** Cyrillic `сх`/`Сх` become "sh"/"Sh" and `тс`/`Тс` become "ts"/"Ts",
      consuming both letters; letter by letter `сх` would have been "sx". */
  lemma {:induction false} CyrillicDigraphsConsumeBoth(t: string)
    ensures CyrToLat("сх" + t) == "sh" + CyrToLat(t)
    ensures CyrToLat("Сх" + t) == "Sh" + CyrToLat(t)
    ensures CyrToLat("тс" + t) == "ts" + CyrToLat(t)
    ensures CyrToLat("Тс" + t) == "Ts" + CyrToLat(t)
    ensures CyrillicLetter('с') + CyrillicLetter('х') == "sx"
  {
    CyrillicPairStep('с', 'х', t);
    CyrillicPairStep('С', 'х', t);
    CyrillicPairStep('т', 'с', t);
    CyrillicPairStep('Т', 'с', t);
  }

  /** The Latin consonant digraphs become single Cyrillic letters before
      any single-letter lookup; letter by letter `ts` would have been `тс`. */
  lemma {:induction false} LatinDigraphsFirst(t: string)
    ensures LatToCyr("ts" + t) == "ц" + LatToCyr(t)
    ensures LatToCyr("Ts" + t) == "Ц" + LatToCyr(t)
    ensures LatToCyr("sh" + t) == "ч" + LatToCyr(t)
    ensures LatToCyr("Sh" + t) == "Ч" + LatToCyr(t)
    ensures LatinLetter('t') + LatinLetter('s') == "тс"
  {
    LatinPairStep('t', 's', t);
    LatinPairStep('T', 's', t);
    LatinPairStep('s', 'h', t);
    LatinPairStep('S', 'h', t);
  }

  /** Likewise the vowel digraphs `yu` and `ya`; letter by letter `ya`
      would have been `йа`. */
  lemma {:induction false} LatinVowelDigraphsFirst(t: string)
    ensures LatToCyr("yu" + t) == "ю" + LatToCyr(t)
    ensures LatToCyr("Yu" + t) == "Ю" + LatToCyr(t)
    ensures LatToCyr("ya" + t) == "я" + LatToCyr(t)
    ensures LatToCyr("Ya" + t) == "Я" + LatToCyr(t)
    ensures LatinLetter('y') + LatinLetter('a') == "йа"
  {
    LatinPairStep('y', 'u', t);
    LatinPairStep('Y', 'u', t);
    LatinPairStep('y', 'a', t);
    LatinPairStep('Y', 'a', t);
  }

  /** A character without a table entry is copied and the scan moves on by
      exactly one position. */
  lemma {:induction false} CyrillicUnmappedCopied(c: char, t: string)
    requires CyrillicToLatinTable(c).None?
    ensures CyrToLat([c] + t) == [c] + CyrToLat(t)
  {
    CyrillicSingleStep(c, t);
  }

  lemma {:induction false} LatinUnmappedCopied(c: char, t: string)
    requires LatinToCyrillicTable(c).None?
    ensures LatToCyr([c] + t) == [c] + LatToCyr(t)
  {
    LatinSingleStep(c, t);
  }

  /** Digits, the space and the Latin letters c, h and u have no entry in
      the Latin table. */
  lemma {:induction false} LatinTableGaps()
    ensures LatinToCyrillicTable('c').None?
    ensures LatinToCyrillicTable('h').None?
    ensures LatinToCyrillicTable('u').None?
    ensures LatinToCyrillicTable(' ').None?
    ensures forall c :: '0' <= c <= '9' ==> LatinToCyrillicTable(c).None?
  {
  }

  /** A text none of whose characters has a table entry comes out unchanged. */
  lemma {:induction false} CyrillicUnmappedText(t: string)
    requires forall i :: 0 <= i < |t| ==> CyrillicToLatinTable(t[i]).None?
    ensures CyrToLat(t) == t
  {
    if t != [] {
      CyrillicUnmappedText(t[1..]);
      CyrillicUnmappedCopied(t[0], t[1..]);
      assert [t[0]] + t[1..] == t;
    }
  }

  lemma {:induction false} LatinUnmappedText(t: string)
    requires forall i :: 0 <= i < |t| ==> LatinToCyrillicTable(t[i]).None?
    ensures LatToCyr(t) == t
  {
    if t != [] {
      LatinUnmappedText(t[1..]);
      LatinUnmappedCopied(t[0], t[1..]);
      assert [t[0]] + t[1..] == t;
    }
  }

  /** The hard and soft signs map to the empty string and vanish. */
  lemma {:induction false} SignsDeleted(c: char, t: string)
    requires c == 'ъ' || c == 'Ъ' || c == 'ь' || c == 'Ь'
    ensures CyrToLat([c] + t) == CyrToLat(t)
  {
    assert CyrillicToLatinTable(c) == Some("");
    CyrillicSingleStep(c, t);
  }

  lemma {:induction false} Lossy()
    ensures CyrToLat("ц") == CyrToLat("тс") == "ts"
    ensures LatToCyr("ts") == "ц"
    ensures LatToCyr(CyrToLat("тс")) == "ц" != "тс"
    ensures CyrToLat("ч") == CyrToLat("сх") == "sh"
    ensures LatToCyr(CyrToLat("сх")) == "ч" != "сх"
    ensures CyrToLat("аъ") == "a"
  {
    TsLetters();
    ShLetters();
    assert CyrillicToLatinTable('ъ') == Some("") && CyrillicToLatinTable('а') == Some("a");
    CyrillicSingleStep('ц', "");
    CyrillicSingleStep('ч', "");
    CyrillicPairStep('т', 'с', "");
    CyrillicPairStep('с', 'х', "");
    LatinPairStep('t', 's', "");
    LatinPairStep('s', 'h', "");
    CyrillicSingleStep('ъ', "");
    CyrillicSingleStep('а', "ъ");
  }

  /** A Latin character becomes one character: its table entry is one
      Cyrillic letter, and a character without one is copied. */
  lemma {:induction false} LatinLetterLength(c: char)
    ensures |LatinLetter(c)| == 1
  {
  }

  /** Every Cyrillic table entry has at most three Latin letters (щ has
      three; the signs have none). */
  lemma {:induction false} CyrillicLetterLength(c: char)
    ensures |CyrillicLetter(c)| <= 3
  {
  }

  /** Latin to Cyrillic never lengthens a text: a digraph gives one letter
      and every other character one. */
  lemma {:induction false} LatToCyrLength(t: string)
    ensures |LatToCyr(t)| <= |t|
    decreases |t|
  {
    if t != [] {
      if |t| >= 2 && LatinDigraph(t[0], t[1]).Some? {
        LatToCyrLength(t[2..]);
      } else {
        LatToCyrLength(t[1..]);
        LatinLetterLength(t[0]);
      }
    }
  }

  /** Cyrillic to Latin at most triples a text's length. */
  lemma {:induction false} CyrToLatLength(t: string)
    ensures |CyrToLat(t)| <= 3 * |t|
    decreases |t|
  {
    if t != [] {
      if |t| >= 2 && CyrillicDigraph(t[0], t[1]).Some? {
        CyrToLatLength(t[2..]);
      } else {
        CyrToLatLength(t[1..]);
        CyrillicLetterLength(t[0]);
      }
    }
  }

  // ---------------------------------------------------------------------
  // Round trips

  predicate IsLatinDigraphStart(c: char) {
    c == 't' || c == 'T' || c == 's' || c == 'S' || c == 'y' || c == 'Y'
  }

  /** A Cyrillic character that survives the trip to Latin and back, on its
      own and next to any other such character: its Latin form is one
      letter that starts no Latin digraph and maps straight back, or it is
      exactly one Latin digraph for it, or it has no entry in either table. */
  predicate CyrillicRoundTrips(c: char) {
    match CyrillicToLatinTable(c)
    case None => LatinToCyrillicTable(c).None?
    case Some(s) =>
      || (|s| == 1 && !IsLatinDigraphStart(s[0]) && LatinToCyrillicTable(s[0]) == Some([c]))
      || (|s| == 2 && LatinDigraph(s[0], s[1]) == Some([c]))
  }

  /** A Latin character that survives the trip to Cyrillic and back: it maps
      to one Cyrillic letter that maps straight back, or has no entry in
      either table. Lower-case `x` is left out: after `s` or `S` it would
      form the Cyrillic digraph `сх`. */
  predicate LatinRoundTrips(c: char) {
    c != 'x' &&
    match LatinToCyrillicTable(c)
    case None => CyrillicToLatinTable(c).None?
    case Some(s) => |s| == 1 && CyrillicToLatinTable(s[0]) == Some([c])
  }

  /** Letters that do not round-trip: т, с and й, whose Latin forms start
      Latin digraphs. */
  lemma {:induction false} NotRoundTripping()
    ensures !CyrillicRoundTrips('т') && !CyrillicRoundTrips('с') && !CyrillicRoundTrips('й')
  {
  }

  /** Nor do ы and э, which share a Latin form with и and е. */
  lemma {:induction false} SharedLatinForms()
    ensures CyrillicLetter('ы') == CyrillicLetter('и') && CyrillicLetter('э') == CyrillicLetter('е')
    ensures !CyrillicRoundTrips('ы') && !CyrillicRoundTrips('э')
  {
  }

  /** Nor does щ, written with three Latin letters. */
  lemma {:induction false} NotRoundTrippingOthers()
    ensures !CyrillicRoundTrips('щ')
  {
  }

  /** Nor do the signs, which are dropped. */
  lemma {:induction false} SignsNotRoundTripping()
    ensures !CyrillicRoundTrips('ъ') && !CyrillicRoundTrips('ь')
  {
    assert CyrillicToLatinTable('ъ') == Some("");
    assert CyrillicToLatinTable('ь') == Some("");
  }

  /** Nor do Latin `i` (it comes back as ı) and `x`. */
  lemma {:induction false} LatinNotRoundTripping()
    ensures !LatinRoundTrips('i') && !LatinRoundTrips('x')
  {
  }

  /** Letters that do round-trip include the Karakalpak letters and the
      letters written with a Latin digraph. */
  lemma {:induction false} RoundTrippingLetters()
    ensures CyrillicRoundTrips('ә') && CyrillicRoundTrips('қ') && CyrillicRoundTrips('ц')
  {
  }

  lemma {:induction false} RoundTrippingLatinLetters()
    ensures LatinRoundTrips('q') && LatinRoundTrips('s')
  {
    assert LatinToCyrillicTable('q') == Some("қ") && CyrillicToLatinTable('қ') == Some("q");
    assert LatinToCyrillicTable('s') == Some("с") && CyrillicToLatinTable('с') == Some("s");
  }

  /** A letter in neither table, such as `h`, round-trips too. */
  lemma {:induction false} UntabledLetterRoundTrips()
    ensures LatinRoundTrips('h')
  {
    assert LatinToCyrillicTable('h').None? && CyrillicToLatinTable('h').None?;
  }

  /** A round-tripping Latin character becomes one Cyrillic letter, `с`
      only when it is `s`, never `х`, and that letter maps straight back. */
  lemma {:induction false} LatinLetterBack(c: char)
    requires LatinRoundTrips(c)
    ensures |LatinLetter(c)| == 1
    ensures LatinLetter(c)[0] == 'с' ==> c == 's'
    ensures LatinLetter(c)[0] != 'х'
    ensures CyrillicLetter(LatinLetter(c)[0]) == [c]
  {
  }

  /** A Latin digraph becomes one Cyrillic letter that starts no Cyrillic
      digraph and maps back to the same two letters. */
  lemma {:induction false} LatinDigraphBack(a: char, b: char)
    requires LatinDigraph(a, b).Some?
    ensures |LatinDigraph(a, b).value| == 1
    ensures forall x :: CyrillicDigraph(LatinDigraph(a, b).value[0], x).None?
    ensures CyrillicLetter(LatinDigraph(a, b).value[0]) == [a, b]
  {
    if a == 't' || a == 'T' {
      TsLetters();
    } else if a == 's' || a == 'S' {
      ShLetters();
    } else if b == 'u' {
      YuLetters();
    } else {
      YaLetters();
    }
  }

  /** The table writes ц as "ts", ч as "sh", ю as "yu" and я as "ya", in
      either case: the letters that Latin digraphs stand for. */
  lemma {:induction false} TsLetters()
    ensures CyrillicLetter('ц') == "ts" && CyrillicLetter('Ц') == "Ts"
  {
  }

  lemma {:induction false} ShLetters()
    ensures CyrillicLetter('ч') == "sh" && CyrillicLetter('Ч') == "Sh"
  {
  }

  lemma {:induction false} YuLetters()
    ensures CyrillicLetter('ю') == "yu" && CyrillicLetter('Ю') == "Yu"
  {
  }

  lemma {:induction false} YaLetters()
    ensures CyrillicLetter('я') == "ya" && CyrillicLetter('Я') == "Ya"
  {
  }

  /** One round-tripping Cyrillic character, followed by anything, comes
      back from Latin as itself. */
  lemma {:induction false} CyrillicLetterBack(c: char, r: string)
    requires CyrillicRoundTrips(c)
    ensures LatToCyr(CyrillicLetter(c) + r) == [c] + LatToCyr(r)
  {
    var s := CyrillicLetter(c);
    if |s| == 2 {
      assert s == [s[0], s[1]];
      LatinPairStep(s[0], s[1], r);
    } else {
      assert s == [s[0]];
      LatinSingleStep(s[0], r);
    }
  }

  /** Cyrillic text made of round-tripping characters survives
      Cyrillic → Latin → Cyrillic unchanged. */
  lemma {:induction false} CyrillicRoundTrip(t: string)
    requires forall i :: 0 <= i < |t| ==> CyrillicRoundTrips(t[i])
    ensures LatToCyr(CyrToLat(t)) == t
  {
    if t != [] {
      var c := t[0];
      assert [c] + t[1..] == t;
      CyrillicSingleStep(c, t[1..]);
      CyrillicRoundTrip(t[1..]);
      CyrillicLetterBack(c, CyrToLat(t[1..]));
    }
  }

  /** How the Cyrillic form of a round-tripping Latin text begins: with
      `с` only for a leading `s` not followed by `h`, and never with `х`. */
  lemma {:induction false} LatToCyrHead(u: string)
    requires u != [] && LatinRoundTrips(u[0])
    ensures LatToCyr(u) != []
    ensures LatToCyr(u)[0] == 'с' ==> u[0] == 's' && (|u| < 2 || u[1] != 'h')
    ensures LatToCyr(u)[0] != 'х'
  {
    if |u| >= 2 && LatinDigraph(u[0], u[1]).Some? {
      DigraphHead(u);
    } else {
      assert [u[0]] + u[1..] == u;
      LatinSingleStep(u[0], u[1..]);
      LatinLetterBack(u[0]);
    }
  }

  /** A text starting with a Latin digraph becomes Cyrillic text starting
      with neither `с` nor `х`. */
  lemma {:induction false} DigraphHead(u: string)
    requires |u| >= 2 && LatinDigraph(u[0], u[1]).Some?
    ensures LatToCyr(u) != [] && LatToCyr(u)[0] != 'с' && LatToCyr(u)[0] != 'х'
  {
    assert [u[0], u[1]] + u[2..] == u;
    LatinPairStep(u[0], u[1], u[2..]);
    var d := LatinDigraph(u[0], u[1]).value;
    assert LatToCyr(u)[0] == d[0];
  }

  /** A leading Latin digraph comes back as itself once the rest does. */
  lemma {:induction false} LatinRoundTripPair(t: string)
    requires |t| >= 2 && LatinDigraph(t[0], t[1]).Some?
    requires CyrToLat(LatToCyr(t[2..])) == t[2..]
    ensures CyrToLat(LatToCyr(t)) == t
  {
    var d := LatinDigraph(t[0], t[1]).value;
    assert [t[0], t[1]] + t[2..] == t;
    LatinPairStep(t[0], t[1], t[2..]);
    LatinDigraphBack(t[0], t[1]);
    assert d == [d[0]];
    CyrillicSingleStep(d[0], LatToCyr(t[2..]));
  }

  /** A leading round-tripping Latin letter, not starting a digraph, comes
      back as itself once the rest does. */
  lemma {:induction false} LatinRoundTripSingle(t: string)
    requires t != [] && forall i :: 0 <= i < |t| ==> LatinRoundTrips(t[i])
    requires |t| < 2 || LatinDigraph(t[0], t[1]).None?
    requires CyrToLat(LatToCyr(t[1..])) == t[1..]
    ensures CyrToLat(LatToCyr(t)) == t
  {
    var r := LatToCyr(t[1..]);
    assert [t[0]] + t[1..] == t;
    LatinSingleStep(t[0], t[1..]);
    LatinLetterBack(t[0]);
    var s := LatinLetter(t[0]);
    assert s == [s[0]];
    if t[1..] != [] {
      assert t[1..][0] == t[1];
      LatToCyrHead(t[1..]);
      if r[0] == 'с' {
        LetterBeforeS(t[0]);
      }
    }
    CyrillicSingleStep(s[0], r);
  }

  /** A round-tripping Latin letter that forms no digraph with `s` does not
      become a Cyrillic letter that forms one with `с`. */
  lemma {:induction false} LetterBeforeS(c: char)
    requires LatinRoundTrips(c) && LatinDigraph(c, 's').None?
    ensures CyrillicDigraph(LatinLetter(c)[0], 'с').None?
  {
    LatinLetterBack(c);
  }

  /** Latin text made of round-tripping characters survives
      Latin → Cyrillic → Latin unchanged. */
  lemma {:induction false} LatinRoundTrip(t: string)
    requires forall i :: 0 <= i < |t| ==> LatinRoundTrips(t[i])
    ensures CyrToLat(LatToCyr(t)) == t
    decreases |t|
  {
    if t != [] {
      if |t| >= 2 && LatinDigraph(t[0], t[1]).Some? {
        LatinRoundTrip(t[2..]);
        LatinRoundTripPair(t);
      } else {
        LatinRoundTrip(t[1..]);
        LatinRoundTripSingle(t);
      }
    }
  }

  // ---------------------------------------------------------------------
  // Script detection and dispatch

  /** `/[а-яәғқңөүһ]/gi`: with the `i` flag upper-case letters match too. */
  predicate IsCyrillicLetter(c: char) {
    || ('а' <= c <= 'я') || ('А' <= c <= 'Я')
    || c == 'ә' || c == 'Ә' || c == 'ғ' || c == 'Ғ' || c == 'қ' || c == 'Қ'
    || c == 'ң' || c == 'Ң' || c == 'ө' || c == 'Ө' || c == 'ү' || c == 'Ү'
    || c == 'һ' || c == 'Һ'
  }

  /** `/[a-zәğqńöüşi]/gi`. The Cyrillic `ә` is in this class too; the dotless
      `ı` is not. */
  predicate IsLatinLetter(c: char) {
    || ('a' <= c <= 'z') || ('A' <= c <= 'Z')
    || c == 'ә' || c == 'Ә' || c == 'ğ' || c == 'Ğ' || c == 'ń' || c == 'Ń'
    || c == 'ö' || c == 'Ö' || c == 'ü' || c == 'Ü' || c == 'ş' || c == 'Ş'
  }

  /** `detectScript`: the alphabet with strictly more letters wins; a tie,
      including a text with no letters at all, is "mixed". */
  function DetectScript(text: string): (r: Script)
    ensures r == Cyrillic <==> Count(text, IsCyrillicLetter) > Count(text, IsLatinLetter)
    ensures r == Latin <==> Count(text, IsLatinLetter) > Count(text, IsCyrillicLetter)
    ensures r == Mixed <==> Count(text, IsCyrillicLetter) == Count(text, IsLatinLetter)
  {
    var cyrillic := Count(text, IsCyrillicLetter);
    var latin := Count(text, IsLatinLetter);
    if cyrillic > latin then Cyrillic
    else if latin > cyrillic then Latin
    else Mixed
  }

  /** A text without letters is "mixed"; `ә` counts for both alphabets. */
  lemma {:induction false} DetectScriptEdges()
    ensures DetectScript("") == Mixed
    ensures DetectScript("2024") == Mixed
    ensures DetectScript("ә") == Mixed
    ensures DetectScript("әa") == Latin
  {
    assert Count("ә", IsCyrillicLetter) == 1 == Count("ә", IsLatinLetter);
    assert "әa"[1..] == "a";
    assert Count("әa", IsLatinLetter) == 2;
  }

  /** Joining two texts detected as the same alphabet keeps that alphabet. */
  lemma {:induction false} DetectScriptJoin(a: string, b: string)
    requires DetectScript(a) == DetectScript(b)
    requires DetectScript(a) != Mixed
    ensures DetectScript(a + b) == DetectScript(a)
  {
    CountAppend(a, b, IsCyrillicLetter);
    CountAppend(a, b, IsLatinLetter);
  }

  const MixedMessage := "Matnda aralash alifbo ishlatilgan"

  /** The result of `autoTransliterate`. */
  datatype Conversion = Conversion(result: string, from: Script, to: Script, message: Option<string>)

  /** `autoTransliterate`: Cyrillic text goes to Latin, Latin text to
      Cyrillic, and a mixed text comes back unchanged with a message. */
  function AutoTransliterate(text: string): (r: Conversion)
    ensures DetectScript(text) == Cyrillic ==> r == Conversion(CyrToLat(text), Cyrillic, Latin, None)
    ensures DetectScript(text) == Latin ==> r == Conversion(LatToCyr(text), Latin, Cyrillic, None)
    ensures DetectScript(text) == Mixed ==>
      r.result == text && r.from == Mixed && r.to == Mixed && r.message == Some(MixedMessage)
    ensures r.from != r.to || r.result == text
  {
    match DetectScript(text)
    case Cyrillic => Conversion(CyrToLat(text), Cyrillic, Latin, None)
    case Latin => Conversion(LatToCyr(text), Latin, Cyrillic, None)
    case _ => Conversion(text, Mixed, Mixed, Some(MixedMessage))
  }

  /** A Cyrillic text of round-tripping letters, converted automatically and
      then converted back, is recovered. */
  lemma {:induction false} AutoTransliterateReversible(text: string)
    requires DetectScript(text) == Cyrillic
    requires forall i :: 0 <= i < |text| ==> CyrillicRoundTrips(text[i])
    ensures LatToCyr(AutoTransliterate(text).result) == text
  {
    CyrillicRoundTrip(text);
  }

  /** `manualTransliterate`: any direction other than "toLatin" and
      "toCyrillic" leaves the text as it is. */
  function ManualTransliterate(text: string, direction: string): (r: string)
    ensures direction == "toLatin" ==> r == CyrToLat(text)
    ensures direction == "toCyrillic" ==> r == LatToCyr(text)
    ensures direction != "toLatin" && direction != "toCyrillic" ==> r == text
  {
    if direction == "toLatin" then CyrToLat(text)
    else if direction == "toCyrillic" then LatToCyr(text)
    else text
  }
}
