/** The viewer's password field (password-entry.js): eight symbols shown as XXXX-XXXX. */
module PasswordEntry {
  import opened Bytes

  const MAX_SYMBOLS := 8

  // ---- Characters

  predicate Alphanumeric(c: char) {
    'a' <= c <= 'z' || 'A' <= c <= 'Z' || '0' <= c <= '9'
  }

  function Upper(c: char): char {
    if 'a' <= c <= 'z' then (c as int - 32) as char else c
  }

  predicate Ascii(c: char) {
    c as int < 128
  }

  /**
   What toUpperCase makes of a character. Outside ASCII these ten become ASCII letters: the
   dotless i, the long s, the sharp s and the Latin ligatures. What any other one becomes still
   holds a character outside ASCII, which is all that matters here, so it stands for itself.
   */
  function UpperText(c: char): (upper: string)
    ensures upper != []
    ensures Ascii(c) ==> upper == [Upper(c)]
  {
    match c
    case '\U{0131}' => "I"
    case '\U{017F}' => "S"
    case '\U{00DF}' => "SS"
    case '\U{FB00}' => "FF"
    case '\U{FB01}' => "FI"
    case '\U{FB02}' => "FL"
    case '\U{FB03}' => "FFI"
    case '\U{FB04}' => "FFL"
    case '\U{FB05}' => "ST"
    case '\U{FB06}' => "ST"
    case _ => [Upper(c)]
  }

  /** The symbols that passwords are made of: no 0, 1, I, L or O. */
  predicate Unambiguous(c: char) {
    '2' <= c <= '9' || ('A' <= c <= 'Z' && c != 'I' && c != 'L' && c != 'O')
  }

  /** What trim() takes off: white space and line terminators. */
  predicate Space(c: char) {
    || c == ' ' || '\t' <= c <= '\r'
    || c in ['\U{00A0}', '\U{1680}', '\U{2028}', '\U{2029}', '\U{202F}', '\U{205F}', '\U{3000}', '\U{FEFF}']
    || '\U{2000}' <= c <= '\U{200A}'
  }

  /** symbolsIn: every alphanumeric character, in upper case; all others are dropped. */
  function SymbolsIn(text: string): (symbols: string)
    ensures |symbols| <= |text|
  {
    if text == [] then []
    else
      var last := text[|text| - 1];
      SymbolsIn(text[..|text| - 1]) + if Alphanumeric(last) then [Upper(last)] else []
  }

  predicate AllSymbols(s: string) {
    forall i :: 0 <= i < |s| ==> Alphanumeric(s[i]) && Upper(s[i]) == s[i]
  }

  // ---- Entry

  function Min(a: int, b: int): int {
    if a < b then a else b
  }

  /** String.prototype.slice from the start: a position past the end means the end. */
  function Head(s: string, n: nat): string {
    s[..Min(n, |s|)]
  }

  function Shown(symbols: string): string {
    if |symbols| > 4 then symbols[..4] + "-" + symbols[4..] else symbols
  }

  /** What acceptSymbols keeps of a value edited up to `anchor`, and where it cut. */
  datatype Entry = Entry(kept: string, end: nat, cut: nat)

  function Count(value: string, index: nat): (n: nat)
  {
    |SymbolsIn(Head(value, index))|
  }

  /** acceptSymbols: excess symbols are dropped just before the anchor, the end of what was typed. */
  function AcceptSymbols(value: string, anchor: nat): (entry: Entry)
  {
    var symbols, end := SymbolsIn(value), Count(value, anchor);
    CountInRange(value, anchor);
    var cut := Min(if |symbols| > MAX_SYMBOLS then |symbols| - MAX_SYMBOLS else 0, end);
    Entry(Head(symbols[..end - cut] + symbols[end..], MAX_SYMBOLS), end, cut)
  }

  function Caret(value: string, entry: Entry, index: nat): int {
    var n := Count(value, index);
    var mapped := Min(|entry.kept|, if n <= entry.end - entry.cut then n
                                    else if entry.end - entry.cut > n - entry.cut then entry.end - entry.cut
                                    else n - entry.cut);
    mapped + if mapped > 4 then 1 else 0
  }

  /** formatPasswordEntry. */
  function Format(value: string, caret: nat): (string, int) {
    var entry := AcceptSymbols(value, caret);
    (Shown(entry.kept), Caret(value, entry, caret))
  }

  /** formatSegmentedPasswordEntry. */
  function FormatSegmented(value: string, start: nat, end: nat): (string, int, int) {
    var entry := AcceptSymbols(value, end);
    (Shown(entry.kept), Caret(value, entry, start), Caret(value, entry, end))
  }

  // ---- Symbols of pieces of text

  lemma {:induction false} SymbolsJoin(a: string, b: string)
    ensures SymbolsIn(a + b) == SymbolsIn(a) + SymbolsIn(b)
  {
    if b == [] {
      assert a + b == a;
    } else {
      var last := |b| - 1;
      SymbolsJoin(a, b[..last]);
      assert (a + b)[..|a + b| - 1] == a + b[..last];
    }
  }

  lemma {:induction false} SymbolsAreSymbols(text: string)
    ensures AllSymbols(SymbolsIn(text))
  {
    if text != [] {
      SymbolsAreSymbols(text[..|text| - 1]);
    }
  }

  lemma {:induction false} SymbolsOfSymbols(s: string)
    requires AllSymbols(s)
    ensures SymbolsIn(s) == s
  {
    if s != [] {
      SymbolsOfSymbols(s[..|s| - 1]);
      assert s == s[..|s| - 1] + [s[|s| - 1]];
    }
  }

  lemma SymbolsShown(s: string)
    requires AllSymbols(s)
    ensures SymbolsIn(Shown(s)) == s
  {
    if |s| > 4 {
      assert s == s[..4] + s[4..];
      SymbolsOfSymbols(s[..4]);
      SymbolsOfSymbols(s[4..]);
      SymbolsJoin(s[..4], "-");
      SymbolsJoin(s[..4] + "-", s[4..]);
      assert SymbolsIn("-") == "" by {
        assert "-"[..0] == "";
      }
    } else {
      SymbolsOfSymbols(s);
    }
  }

  /** Everything before a position of the value contributes the first symbols. */
  lemma CountInRange(value: string, index: nat)
    ensures Count(value, index) <= |SymbolsIn(value)|
    ensures SymbolsIn(value)[..Count(value, index)] == SymbolsIn(Head(value, index))
  {
    var n := Min(index, |value|);
    assert value == value[..n] + value[n..];
    SymbolsJoin(value[..n], value[n..]);
  }

  lemma CountMonotone(value: string, i: nat, j: nat)
    requires i <= j
    ensures Count(value, i) <= Count(value, j)
  {
    CountInRange(Head(value, j), i);
    assert Head(Head(value, j), i) == Head(value, i);
  }

  // ---- The results

  /** As many symbols as there is room for, all of them symbols of the value, in order, with one gap at most. */
  lemma AcceptedSymbols(value: string, anchor: nat)
    ensures var entry, symbols := AcceptSymbols(value, anchor), SymbolsIn(value);
      && |entry.kept| == Min(MAX_SYMBOLS, |symbols|) && AllSymbols(entry.kept)
      && entry.cut <= entry.end <= |symbols|
      && entry.kept == Head(symbols[..entry.end - entry.cut] + symbols[entry.end..], MAX_SYMBOLS)
      && (|symbols| <= MAX_SYMBOLS ==> entry.kept == symbols)
  {
    hide Count, SymbolsIn, AllSymbols;
    CountInRange(value, anchor);
    SymbolsAreSymbols(value);
    var entry := AcceptSymbols(value, anchor);
    PiecesAreSymbols(SymbolsIn(value), entry.end, entry.cut);
  }

  lemma PiecesAreSymbols(symbols: string, end: nat, cut: nat)
    requires AllSymbols(symbols) && cut <= end <= |symbols|
    ensures AllSymbols(Head(symbols[..end - cut] + symbols[end..], MAX_SYMBOLS))
    ensures cut == 0 ==> symbols[..end - cut] + symbols[end..] == symbols
  {
    if cut == 0 {
      assert symbols[..end] + symbols[end..] == symbols;
    }
  }

  /**
   Pasting never pushes out what was there. With a before the caret and b after it, at most eight
   symbols together, inserting any text keeps both and as much of the text as fits, from its
   beginning; the caret ends up after it.
   */
  lemma PasteKeepsOld(a: string, pasted: string, b: string)
    requires |SymbolsIn(a)| + |SymbolsIn(b)| <= MAX_SYMBOLS
    ensures var room := MAX_SYMBOLS - |SymbolsIn(a)| - |SymbolsIn(b)|;
      var before := SymbolsIn(a) + Head(SymbolsIn(pasted), room);
      Format(a + pasted + b, |a + pasted|)
      == (Shown(before + SymbolsIn(b)), |before| + if |before| > 4 then 1 else 0)
  {
    hide SymbolsIn, Head;
    var value, anchor := a + pasted + b, |a + pasted|;
    SymbolsJoin(a, pasted);
    SymbolsJoin(a + pasted, b);
    assert Head(value, anchor) == a + pasted by { HeadOfJoin(a + pasted, b); }
    var p, x, q := SymbolsIn(a), SymbolsIn(pasted), SymbolsIn(b);
    CountInRange(value, anchor);
    var entry := AcceptSymbols(value, anchor);
    Cut(p, x, q, MAX_SYMBOLS - |p| - |q|, entry.cut);
  }

  lemma HeadOfJoin(a: string, b: string)
    ensures Head(a + b, |a|) == a
  {
  }

  /** Cutting the excess before the anchor cuts the inserted text, from its end. */
  lemma Cut(p: string, x: string, q: string, room: nat, cut: nat)
    requires room == MAX_SYMBOLS - |p| - |q|
    requires cut == Min(if |p + x + q| > MAX_SYMBOLS then |p + x + q| - MAX_SYMBOLS else 0, |p + x|)
    ensures cut <= |x|
    ensures (p + x + q)[..|p + x| - cut] == p + Head(x, room) && (p + x + q)[|p + x|..] == q
    ensures Head(p + Head(x, room) + q, MAX_SYMBOLS) == p + Head(x, room) + q
    ensures |p + x| - cut == |p + Head(x, room)|
  {
    var kept := Head(x, room);
    assert kept == x[..|x| - cut];
    assert (p + x + q)[..|p| + |kept|] == p + kept;
  }

  /** A caret stays inside the text, and carets keep their order. */
  lemma CaretMonotone(value: string, anchor: nat, i: nat, j: nat)
    requires i <= j
    ensures var entry := AcceptSymbols(value, anchor);
      0 <= Caret(value, entry, i) <= Caret(value, entry, j) <= |Shown(entry.kept)|
  {
    hide Count;
    AcceptedSymbols(value, anchor);
    CountMonotone(value, i, j);
  }

  /** A selection stays a selection inside the same text that a caret at its end would give. */
  lemma SegmentedSelection(value: string, start: nat, end: nat)
    requires start <= end
    ensures var (shown, from, to) := FormatSegmented(value, start, end);
      shown == Format(value, end).0 && to == Format(value, end).1 && 0 <= from <= to <= |shown|
  {
    CaretMonotone(value, end, start, end);
  }

  /** Formatting what is shown changes nothing, wherever the caret is. */
  lemma FormatIdempotent(value: string, caret: nat, again: nat)
    ensures var shown := Format(value, caret).0; Format(shown, again).0 == shown
  {
    AcceptedSymbols(value, caret);
    var kept := AcceptSymbols(value, caret).kept;
    SymbolsShown(kept);
    AcceptedSymbols(Shown(kept), again);
  }

  // ---- normalizePassword

  /** A code in either spelling, after trimming and upper-casing. */
  predicate Spelled(text: string) {
    (|text| == 8 && forall i :: 0 <= i < 8 ==> Unambiguous(text[i]))
    || (|text| == 9 && text[4] == '-' && forall i :: 0 <= i < 9 && i != 4 ==> Unambiguous(text[i]))
  }

  function UpperAll(text: string): (upper: string)
    ensures |upper| >= |text|
  {
    if text == [] then []
    else UpperAll(text[..|text| - 1]) + UpperText(text[|text| - 1])
  }

  function TrimStart(text: string): string {
    if text != [] && Space(text[0]) then TrimStart(text[1..]) else text
  }

  function TrimEnd(text: string): string {
    if text != [] && Space(text[|text| - 1]) then TrimEnd(text[..|text| - 1]) else text
  }

  /** The value without the space around it. */
  function Trimmed(value: string): string {
    TrimEnd(TrimStart(value))
  }

  /** The normal form of a text in upper case, if it is a well-formed code. */
  function NormalForm(text: string): Option<string> {
    if !Spelled(text) then None
    else
      var symbols := if |text| == 9 then text[..4] + text[5..] else text;
      Some(symbols[..4] + "-" + symbols[4..])
  }

  /** normalizePassword: the normal form of a well-formed code, or null. */
  function Normalize(value: string): Option<string> {
    NormalForm(UpperAll(Trimmed(value)))
  }

  lemma {:induction false} TrimKeepsSymbols(text: string)
    ensures SymbolsIn(TrimStart(text)) == SymbolsIn(text) && SymbolsIn(TrimEnd(text)) == SymbolsIn(text)
    decreases |text|
  {
    hide Space;
    if text != [] && Space(text[0]) {
      TrimKeepsSymbols(text[1..]);
      assert text == [text[0]] + text[1..];
      SymbolsJoin([text[0]], text[1..]);
      SpaceIsNoSymbol(text[0]);
    }
    if text != [] && Space(text[|text| - 1]) {
      TrimKeepsSymbols(text[..|text| - 1]);
      SpaceIsNoSymbol(text[|text| - 1]);
    }
  }

  lemma SpaceIsNoSymbol(c: char)
    requires Space(c)
    ensures !Alphanumeric(c) && SymbolsIn([c]) == []
  {
    assert [c][..0] == [];
  }

  predicate AllAscii(text: string) {
    forall i :: 0 <= i < |text| ==> Ascii(text[i])
  }

  /**
   Upper-casing ASCII text keeps its symbols. When other text becomes ASCII, it has gained symbols
   that were dropped before.
   */
  lemma {:induction false} UpperSymbols(text: string)
    requires AllAscii(UpperAll(text))
    ensures AllAscii(text) ==> SymbolsIn(UpperAll(text)) == SymbolsIn(text)
    ensures !AllAscii(text) ==> |SymbolsIn(UpperAll(text))| > |SymbolsIn(text)|
  {
    hide AllAscii, UpperAll, UpperText, SymbolsIn;
    if text == [] {
      UpperNothing(text);
    } else {
      var last := |text| - 1;
      UpperLast(text);
      AsciiJoin(UpperAll(text[..last]), UpperText(text[last]));
      UpperSymbols(text[..last]);
      SymbolsLast(text);
      SymbolsJoin(UpperAll(text[..last]), UpperText(text[last]));
      UpperOne(text[last]);
      AsciiSnoc(text);
    }
  }

  lemma UpperNothing(text: string)
    requires text == []
    ensures UpperAll(text) == [] && AllAscii(text)
  {
  }

  lemma UpperLast(text: string)
    requires text != []
    ensures UpperAll(text) == UpperAll(text[..|text| - 1]) + UpperText(text[|text| - 1])
  {
  }

  lemma SymbolsLast(text: string)
    requires text != []
    ensures var last := text[|text| - 1];
      SymbolsIn(text) == SymbolsIn(text[..|text| - 1]) + if Alphanumeric(last) then [Upper(last)] else []
  {
  }

  lemma AsciiJoin(a: string, b: string)
    requires AllAscii(a + b)
    ensures AllAscii(a) && AllAscii(b)
  {
    assert forall i :: 0 <= i < |a| ==> (a + b)[i] == a[i];
    assert forall i :: 0 <= i < |b| ==> (a + b)[|a| + i] == b[i];
  }

  lemma AsciiSnoc(text: string)
    requires text != []
    ensures AllAscii(text) <==> AllAscii(text[..|text| - 1]) && Ascii(text[|text| - 1])
  {
    var last := |text| - 1;
    if AllAscii(text[..last]) && Ascii(text[last]) {
      forall i | 0 <= i < |text| ensures Ascii(text[i]) {
        assert i == last || text[i] == text[..last][i];
      }
    }
  }

  lemma UpperOne(c: char)
    requires AllAscii(UpperText(c))
    ensures Ascii(c) ==> SymbolsIn(UpperText(c)) == (if Alphanumeric(c) then [Upper(c)] else [])
    ensures !Ascii(c) ==> !Alphanumeric(c) && |SymbolsIn(UpperText(c))| >= 1
  {
    var upper := UpperText(c);
    assert Ascii(upper[0]);
    assert upper == [upper[0]] + upper[1..];
    SymbolsJoin([upper[0]], upper[1..]);
    assert [upper[0]][..0] == "" && (Ascii(c) ==> upper[1..] == "");
  }

  lemma AcceptedIsSymbols(value: string)
    requires Normalize(value).Some?
    ensures var upper := UpperAll(Trimmed(value));
      AllAscii(upper) && |SymbolsIn(upper)| == 8 && Normalize(value).value == Shown(SymbolsIn(upper))
  {
    hide SymbolsIn;
    var text := UpperAll(Trimmed(value));
    var symbols := if |text| == 9 then text[..4] + text[5..] else text;
    SpelledSymbols(text, symbols);
  }

  /**
   A text that is accepted as a password is shown, as it is typed, in its normal form - if and only
   if it is ASCII but for the space around it. For the other letters that upper-casing turns into
   symbols, the field drops what the check accepts.
   */
  lemma FormatsToNormalIff(value: string, caret: nat)
    requires Normalize(value).Some?
    ensures Format(value, caret).0 == Normalize(value).value <==> AllAscii(Trimmed(value))
  {
    hide SymbolsIn, Normalize;
    AcceptedIsSymbols(value);
    TrimKeepsSymbols(value);
    TrimKeepsSymbols(TrimStart(value));
    UpperSymbols(Trimmed(value));
    AcceptedSymbols(value, caret);
  }

  /** The long s: accepted as an S, but not shown. */
  lemma LongS(caret: nat)
    ensures Normalize("\U{017F}2345678") == Some("S234-5678")
    ensures Format("\U{017F}2345678", caret).0 != "S234-5678"
  {
    hide UpperAll, NormalForm, TrimStart, TrimEnd, Format;
    var value := "\U{017F}2345678";
    UpperIs(value);
    Untrimmed(value);
    NormalIs();
    assert !Ascii(value[0]);
    FormatsToNormalIff(value, caret);
  }

  lemma NormalIs()
    ensures NormalForm("S2345678") == Some("S234-5678")
  {
    var text := "S2345678";
    assert text[..4] + "-" + text[4..] == "S234-5678";
  }

  lemma Untrimmed(value: string)
    requires value != [] && !Space(value[0]) && !Space(value[|value| - 1])
    ensures Trimmed(value) == value
  {
  }

  lemma UpperIs(value: string)
    requires value == "\U{017F}2345678"
    ensures UpperAll(value) == "S2345678"
  {
    hide UpperText;
    UpperFirst(value[0]);
    UpperJoin([value[0]], "2345678");
    assert value == [value[0]] + "2345678";
    UpperOfUpper("2345678");
  }

  lemma UpperFirst(c: char)
    requires c == '\U{017F}'
    ensures UpperAll([c]) == "S"
  {
    assert [c][..0] == "";
  }

  lemma {:induction false} UpperJoin(a: string, b: string)
    ensures UpperAll(a + b) == UpperAll(a) + UpperAll(b)
  {
    hide UpperText;
    if b == [] {
      assert a + b == a;
    } else {
      UpperJoin(a, b[..|b| - 1]);
      assert (a + b)[..|a + b| - 1] == a + b[..|b| - 1];
    }
  }

  lemma {:induction false} UpperOfUpper(text: string)
    requires forall i :: 0 <= i < |text| ==> Ascii(text[i]) && Upper(text[i]) == text[i]
    ensures UpperAll(text) == text
  {
    if text != [] {
      UpperOfUpper(text[..|text| - 1]);
      assert text == text[..|text| - 1] + [text[|text| - 1]];
    }
  }

  lemma SpelledSymbols(text: string, symbols: string)
    requires Spelled(text) && symbols == if |text| == 9 then text[..4] + text[5..] else text
    ensures SymbolsIn(text) == symbols && |symbols| == 8
  {
    assert AllSymbols(symbols);
    SymbolsShown(symbols);
    if |text| == 9 {
      assert text == Shown(symbols);
    } else {
      SymbolsOfSymbols(text);
    }
  }

  /** A normal form is its own normal form. */
  lemma NormalizeIdempotent(value: string)
    requires Normalize(value).Some?
    ensures Normalize(Normalize(value).value) == Normalize(value)
  {
    hide UpperAll, NormalForm, TrimStart, TrimEnd;
    var normal := Normalize(value).value;
    NormalIsNormal(UpperAll(Trimmed(value)));
    Untrimmed(normal);
    UpperOfUpper(normal);
  }

  lemma NormalIsNormal(text: string)
    requires NormalForm(text).Some?
    ensures var normal := NormalForm(text).value;
      && |normal| == 9 && NormalForm(normal) == Some(normal) && !Space(normal[0]) && !Space(normal[8])
      && forall i :: 0 <= i < 9 ==> Ascii(normal[i]) && Upper(normal[i]) == normal[i]
  {
    hide Space;
    var normal := NormalForm(text).value;
    assert normal[4] == '-' && forall i :: 0 <= i < 9 && i != 4 ==> Unambiguous(normal[i]);
    var symbols := normal[..4] + normal[5..];
    assert symbols[..4] == normal[..4] && symbols[4..] == normal[5..];
    assert normal == normal[..4] + "-" + normal[5..];
    NoSpace(normal[0]);
    NoSpace(normal[8]);
  }

  lemma NoSpace(c: char)
    requires Unambiguous(c)
    ensures !Space(c)
  {
  }

  // ---- Which codes are accepted

  const ALPHABET := "23456789ABCDEFGHJKMNPQRSTUVWXYZ"

  lemma InAlphabet(c: char)
    ensures c in ALPHABET ==> Unambiguous(c)
  {
  }

  lemma {:induction false} TrimStartPast(before: string, text: string)
    requires (forall i :: 0 <= i < |before| ==> Space(before[i])) && text != [] && !Space(text[0])
    ensures TrimStart(before + text) == text
  {
    hide Space;
    if before == [] {
      assert before + text == text;
    } else {
      TrimStartPast(before[1..], text);
      assert (before + text)[1..] == before[1..] + text;
    }
  }

  lemma {:induction false} TrimEndPast(text: string, after: string)
    requires (forall i :: 0 <= i < |after| ==> Space(after[i])) && text != [] && !Space(text[|text| - 1])
    ensures TrimEnd(text + after) == text
  {
    hide Space;
    if after == [] {
      assert text + after == text;
    } else {
      TrimEndPast(text, after[..|after| - 1]);
      assert (text + after)[..|text + after| - 1] == text + after[..|after| - 1];
    }
  }

  lemma {:induction false} UpperAscii(text: string)
    requires AllAscii(text)
    ensures |UpperAll(text)| == |text| && forall i :: 0 <= i < |text| ==> UpperAll(text)[i] == Upper(text[i])
  {
    hide UpperText;
    if text != [] {
      UpperAscii(text[..|text| - 1]);
      UpperAsciiOne(text[|text| - 1]);
    }
  }

  lemma UpperAsciiOne(c: char)
    requires Ascii(c)
    ensures UpperText(c) == [Upper(c)]
  {
  }

  lemma SpellingChar(c: char)
    requires Upper(c) in ALPHABET
    ensures Ascii(c) && !Space(c) && Unambiguous(Upper(c))
  {
    InAlphabet(Upper(c));
  }

  /** One spelling, with or without the dash, is its own upper case when the space is off. */
  lemma SpellingUpper(before: string, text: string, after: string)
    requires (forall i :: 0 <= i < |before| ==> Space(before[i])) && (forall i :: 0 <= i < |after| ==> Space(after[i]))
    requires |text| > 0 && AllAscii(text) && !Space(text[0]) && !Space(text[|text| - 1])
    ensures Normalize(before + text + after) == NormalForm(UpperAll(text))
  {
    hide Space, NormalForm, UpperAll, AllAscii;
    assert before + text + after == before + (text + after);
    TrimStartPast(before, text + after);
    TrimEndPast(text, after);
  }

  /**
   Every code of eight symbols is accepted in either spelling, in upper or lower case and with any
   space around it, and its normal form is the same.
   */
  lemma EverySpelling(before: string, code: string, after: string)
    requires (forall i :: 0 <= i < |before| ==> Space(before[i])) && (forall i :: 0 <= i < |after| ==> Space(after[i]))
    requires |code| == 8 && forall i :: 0 <= i < 8 ==> Upper(code[i]) in ALPHABET
    ensures var upper := seq(8, (i: nat) requires i < 8 => Upper(code[i]));
      && Normalize(before + code + after) == Some(upper[..4] + "-" + upper[4..])
      && Normalize(before + (code[..4] + "-" + code[4..]) + after) == Some(upper[..4] + "-" + upper[4..])
  {
    hide Space, UpperAll, Normalize, Upper, Unambiguous;
    var upper := seq(8, (i: nat) requires i < 8 => Upper(code[i]));
    var dashed := code[..4] + "-" + code[4..];
    forall i | 0 <= i < 8 ensures Ascii(code[i]) && !Space(code[i]) && Unambiguous(Upper(code[i])) {
      SpellingChar(code[i]);
    }
    DashIsDash();
    SpellingUpper(before, code, after);
    SpellingUpper(before, dashed, after);
    UpperAscii(code);
    UpperAscii(dashed);
    assert UpperAll(code) == upper;
    var text := UpperAll(dashed);
    assert text[..4] == upper[..4] && text[5..] == upper[4..];
    assert text[..4] + text[5..] == upper;
    forall i | 0 <= i < 9 && i != 4 ensures Unambiguous(text[i]) {
      assert text[i] == upper[if i < 4 then i else i - 1];
    }
  }

  lemma DashIsDash()
    ensures Ascii('-') && Upper('-') == '-'
  {
  }
}
