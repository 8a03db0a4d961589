/**
  A player's character as CharacterEditor.xaml.cs creates it and
  MainGameWindow.xaml.cs updates it: its data record, the short hash that
  tells characters of the same name apart, and the name of its save file.
  The SHA-256 digest and the clock are inputs.
 */
module Character {
  import opened Numbers
  import opened Statistics

  /** `CharacterData`. The members `CurrentDifficulty`, `LanguageDirection`
      and `LevelStats` are used by the game but not declared in the class
      shown; they are declared here from those uses. */
  class CharacterData {
    var name: string
    var age: Int32
    var schoolClass: Int32
    var category: string
    var character: string
    var createdDate: int
    var hash: string
    var currentDifficulty: string
    var languageDirection: Int32
    var levelStats: map<string, LevelStatistics>

    /** The object initializer of `SaveCharacterButton_Click`; the members it
        does not set start empty. */
    constructor (name: string, age: Int32, schoolClass: Int32, category: string, character: string,
                 createdDate: int, hash: string)
      ensures this.name == name && this.age == age && this.schoolClass == schoolClass
      ensures this.category == category && this.character == character
      ensures this.createdDate == createdDate && this.hash == hash
      ensures currentDifficulty == [] && languageDirection == 0 && levelStats == map[]
    {
      this.name := name;
      this.age := age;
      this.schoolClass := schoolClass;
      this.category := category;
      this.character := character;
      this.createdDate := createdDate;
      this.hash := hash;
      currentDifficulty := [];
      languageDirection := 0;
      levelStats := map[];
    }
  }

  /** A byte of the digest. */
  type Byte = b: nat | b < 256

  /** The lower-case hexadecimal digit of `d`. */
  function HexDigit(d: nat): char
    requires d < 16
  {
    if d < 10 then ('0' as int + d) as char else ('a' as int + d - 10) as char
  }

  predicate IsHexDigit(c: char) {
    '0' <= c <= '9' || 'a' <= c <= 'f'
  }

  /** Text made of pairs of lower-case hexadecimal digits. */
  predicate IsHexText(s: string) {
    |s| % 2 == 0 && forall i :: 0 <= i < |s| ==> IsHexDigit(s[i])
  }

  /** The value of a lower-case hexadecimal digit. */
  function HexValue(c: char): nat
    requires IsHexDigit(c)
  {
    if c <= '9' then c as int - '0' as int else c as int - 'a' as int + 10
  }

  /** `b.ToString("x2")`: two lower-case hexadecimal digits, high one first. */
  function HexByte(b: Byte): string {
    [HexDigit(b / 16), HexDigit(b % 16)]
  }

  /** The hexadecimal text of `bytes`, two digits per byte, in order. */
  function HexString(bytes: seq<Byte>): string {
    if bytes == [] then [] else HexString(bytes[..|bytes| - 1]) + HexByte(bytes[|bytes| - 1])
  }

  /** Reads hexadecimal text back into bytes. */
  function HexDecode(s: string): seq<Byte>
    requires IsHexText(s)
  {
    if s == [] then []
    else
      var n := |s|;
      HexDecode(s[..n - 2]) + [HexValue(s[n - 2]) * 16 + HexValue(s[n - 1])]
  }

  /** The text has two lower-case hexadecimal digits per byte. */
  lemma {:induction false} HexStringDigits(bytes: seq<Byte>)
    ensures |HexString(bytes)| == 2 * |bytes|
    ensures IsHexText(HexString(bytes))
  {
    if bytes != [] {
      HexStringDigits(bytes[..|bytes| - 1]);
    }
  }

  /** The two digits of one byte read back as that byte. */
  lemma HexByteRoundTrip(b: Byte)
    ensures HexValue(HexByte(b)[0]) * 16 + HexValue(HexByte(b)[1]) == b
  {
  }

  /** Reading the text back gives the bytes. */
  lemma {:induction false} HexStringRoundTrip(bytes: seq<Byte>)
    ensures |HexString(bytes)| == 2 * |bytes|
    ensures IsHexText(HexString(bytes))
    ensures HexDecode(HexString(bytes)) == bytes
  {
    HexStringDigits(bytes);
    if bytes != [] {
      var init, b := bytes[..|bytes| - 1], bytes[|bytes| - 1];
      HexStringRoundTrip(init);
      HexByteRoundTrip(b);
      var s, h := HexString(bytes), HexString(init);
      assert s == h + HexByte(b);
      assert s[..|s| - 2] == h;
      calc {
        HexDecode(s);
        HexDecode(h) + [HexValue(s[|s| - 2]) * 16 + HexValue(s[|s| - 1])];
        init + [b];
      }
      assert bytes == init + [b];
    }
  }

  /** Different bytes give different text. */
  lemma HexStringInjective(a: seq<Byte>, b: seq<Byte>)
    ensures HexString(a) == HexString(b) ==> a == b
  {
    HexStringRoundTrip(a);
    HexStringRoundTrip(b);
  }

  /** The loop of `GenerateHash`: the first four bytes of the SHA-256 digest
      of the age, the class and the clock, in hexadecimal. */
  method GenerateHash(digest: seq<Byte>) returns (hash: string)
    requires |digest| == 32
    ensures hash == HexString(digest[..4])
    ensures |hash| == 8 && IsHexText(hash)
  {
    hash := [];
    for i := 0 to 4
      invariant hash == HexString(digest[..i])
    {
      assert digest[..i + 1][..i] == digest[..i];
      hash := hash + HexByte(digest[i]);
    }
    HexStringRoundTrip(digest[..4]);
  }

  /** Digests that differ in their first four bytes give different hashes. */
  lemma HashesDiffer(d1: seq<Byte>, d2: seq<Byte>)
    requires |d1| == 32 && |d2| == 32
    ensures d1[..4] != d2[..4] ==> HexString(d1[..4]) != HexString(d2[..4])
  {
    HexStringInjective(d1[..4], d2[..4]);
  }

  /** The save file of a character: `{Name}_{Hash}.json`, the name used both
      when the character is created and when progress is saved. */
  function SaveFileName(name: string, hash: string): string {
    name + "_" + hash + ".json"
  }

  /** With hashes of one length, as `GenerateHash` makes them, the file name
      determines both the character name and the hash. */
  lemma SaveFileNameInjective(n1: string, h1: string, n2: string, h2: string)
    requires |h1| == |h2|
    ensures SaveFileName(n1, h1) == SaveFileName(n2, h2) ==> n1 == n2 && h1 == h2
  {
    if SaveFileName(n1, h1) == SaveFileName(n2, h2) {
      var f := SaveFileName(n1, h1);
      assert |n1| == |n2|;
      assert n1 == f[..|n1|] == n2;
      assert h1 == f[|n1| + 1..|n1| + 1 + |h1|] == h2;
    }
  }
}
