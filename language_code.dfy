/** Language codes and pool labels of the multi-step language load.

    A language code packs two ASCII letters into 16 bits, high byte first. A pool
    label, the version string under which a pool is stored on the terminal, is the
    code's two bytes followed by the fixed family suffix of the base label. */
module LanguageCodes {
  import opened Options
  import opened PoolRecords

  /** A VTCLanguageCode value. The enumeration type holds any 16-bit value; only the
      six enumerators are named. */
  type Code = u16

  /** Two bytes packed high byte first. */
  function Pack(hi: u8, lo: u8): (c: Code)
    ensures c / 0x100 == hi && c % 0x100 == lo
  {
    hi * 0x100 + lo
  }

  /** Every code is the packing of its own two bytes. */
  lemma Unpack(c: Code)
    ensures Pack(c / 0x100, c % 0x100) == c
  {
  }

  /** The byte of an ASCII character. */
  function Ascii(ch: char): u8
    requires ch as int < 0x80
  {
    ch as int
  }

  const UNDEFINED: Code := 0
  /** Initial loader language. */
  const BASE: Code := Pack(Ascii('x'), Ascii('x'))
  /** Default pool language. */
  const EN: Code := Pack(Ascii('e'), Ascii('n'))
  /** German. */
  const DE: Code := Pack(Ascii('d'), Ascii('e'))
  /** Swedish. */
  const SV: Code := Pack(Ascii('s'), Ascii('v'))
  /** The pool used for auxiliary control and CCI-A3. */
  const A3: Code := Pack(Ascii('A'), Ascii('3'))

  /** The numeric values of the enumerators. */
  lemma CodeValues()
    ensures UNDEFINED == 0 && BASE == 30840 && EN == 25966 && DE == 25701 && SV == 29558 && A3 == 16691
  {
  }

  /** The six enumerators are pairwise distinct, and no real code is undefined. */
  lemma CodesDistinct()
    ensures UNDEFINED != BASE && UNDEFINED != EN && UNDEFINED != DE && UNDEFINED != SV && UNDEFINED != A3
    ensures BASE != EN && BASE != DE && BASE != SV && BASE != A3
    ensures EN != DE && EN != SV && EN != A3
    ensures DE != SV && DE != A3
    ensures SV != A3
  {
  }

  /** The codes a label may carry: the five real enumerators. */
  predicate Known(c: Code)
  {
    c == BASE || c == A3 || c == DE || c == EN || c == SV
  }

  /** The codes of the pools this application uploads and records as stored. */
  predicate Storable(c: Code)
  {
    c == BASE || c == EN || c == DE || c == A3
  }

  /** The last pool of the load sequence for a terminal language: German for German
      and Swedish terminals, English for every other language, undefined included. */
  function FinalLanguage(vtLanguage: Code): (lc: Code)
    ensures lc == DE || lc == EN
    ensures lc == DE <==> vtLanguage == DE || vtLanguage == SV
  {
    if vtLanguage == DE || vtLanguage == SV then DE else EN
  }

  /** A final language is its own final language. */
  lemma FinalLanguageFixed(vtLanguage: Code)
    ensures FinalLanguage(FinalLanguage(vtLanguage)) == FinalLanguage(vtLanguage)
    ensures Storable(FinalLanguage(vtLanguage))
  {
  }

  /** The language code of a label: the packed first two bytes when they are a real
      code, otherwise undefined; an absent label has no code. */
  function GetLanguageCode(text: Option<seq<u8>>): (lc: Code)
    requires text.Some? ==> |text.value| >= 2
    ensures text.None? ==> lc == UNDEFINED
    ensures text.Some? && Known(Pack(text.value[0], text.value[1])) ==> lc == Pack(text.value[0], text.value[1])
    ensures text.Some? && !Known(Pack(text.value[0], text.value[1])) ==> lc == UNDEFINED
  {
    match text
    case None => UNDEFINED
    case Some(bytes) =>
      var code := Pack(bytes[0], bytes[1]);
      if code == BASE || code == A3 || code == DE || code == EN || code == SV then code else UNDEFINED
  }

  /** The result of GetLanguageCode is always undefined or a real code. */
  lemma GetLanguageCodeRange(text: Option<seq<u8>>)
    requires text.Some? ==> |text.value| >= 2
    ensures GetLanguageCode(text) == UNDEFINED || Known(GetLanguageCode(text))
  {
  }

  /** The base pool label as a character array of lenVersionStr + 1 bytes: the loader
      label "xxWHEPS", blanks up to 32 characters, then zero bytes, the terminator
      included. The 32-character initialiser must fit, so lenVersionStr is at least 32. */
  function BaseLabel(lenVersionStr: nat): (text: seq<u8>)
    requires lenVersionStr >= 32
    ensures |text| == lenVersionStr + 1
    ensures text[0] == Ascii('x') && text[1] == Ascii('x')
    ensures text[lenVersionStr] == 0
  {
    [Ascii('x'), Ascii('x'), Ascii('W'), Ascii('H'), Ascii('E'), Ascii('P'), Ascii('S')] +
    seq(25, _ => Ascii(' ')) + seq(lenVersionStr + 1 - 32, _ => 0)
  }

  /** The base label carries the loader code. */
  lemma BaseLabelCode(lenVersionStr: nat)
    requires lenVersionStr >= 32
    ensures GetLanguageCode(Some(BaseLabel(lenVersionStr))) == BASE
  {
  }

  /** vtcPoolInit's test of a reported version string: its bytes after the two
      language bytes equal those of the base label. */
  predicate SuffixMatches(versionString: seq<u8>, lenVersionStr: nat)
    requires lenVersionStr >= 32 && |versionString| == lenVersionStr
  {
    versionString[2..] == BaseLabel(lenVersionStr)[2..lenVersionStr]
  }

  /** The label of the pool for language lc: the base label with lc's two bytes in
      front. */
  function PoolLabel(lc: Code, lenVersionStr: nat): (text: seq<u8>)
    requires lenVersionStr >= 32
    ensures |text| == lenVersionStr + 1
    ensures Pack(text[0], text[1]) == lc
  {
    [lc / 0x100, lc % 0x100] + BaseLabel(lenVersionStr)[2..]
  }

  /** Decoding a pool label gives back its code, for every enumerator. */
  lemma {:induction false} LabelRoundTrip(lc: Code, lenVersionStr: nat)
    requires lenVersionStr >= 32
    ensures Known(lc) ==> GetLanguageCode(Some(PoolLabel(lc, lenVersionStr))) == lc
    ensures !Known(lc) ==> GetLanguageCode(Some(PoolLabel(lc, lenVersionStr))) == UNDEFINED
  {
    Unpack(lc);
  }

  /** Every pool label, read as a version string, passes vtcPoolInit's suffix test. */
  lemma LabelSuffixMatches(lc: Code, lenVersionStr: nat)
    requires lenVersionStr >= 32
    ensures SuffixMatches(PoolLabel(lc, lenVersionStr)[..lenVersionStr], lenVersionStr)
  {
  }

  /** vtcPoolGetPoolLabel: copies the base label, terminator included, into the
      caller's buffer and writes lc's high and low byte into its first two bytes. */
  method GetPoolLabel(lc: Code, text: array<u8>, lenVersionStr: nat)
    requires lenVersionStr >= 32 && lenVersionStr + 1 <= text.Length
    modifies text
    ensures text[..lenVersionStr + 1] == PoolLabel(lc, lenVersionStr)
    ensures text[lenVersionStr + 1..] == old(text[lenVersionStr + 1..])
  {
    var base := BaseLabel(lenVersionStr);
    forall i | 0 <= i < lenVersionStr + 1 {
      text[i] := base[i];
    }
    text[0] := lc / 0x100;
    text[1] := lc % 0x100;
  }
}
