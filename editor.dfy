/**
  The rules of the character editor in CharacterEditor.xaml.cs: the checks
  on the typed name, age and class, when saving is allowed, the carousel of
  characters per category and what selecting a character changes, and
  what saving produces. Directory listings, the SHA-256 digest and the
  clock are inputs; images, buttons and messages are left out.
 */
module Editor {
  import opened Wrappers
  import opened Text
  import opened Numbers
  import opened Character

  /** The C# remainder `a % n`, which takes the sign of `a`. */
  function CsRemainder(a: int, n: int): int
    requires n > 0
  {
    if a >= 0 then a % n else -((-a) % n)
  }

  /** The position shown at `offset` from the middle of a carousel of `count`
      characters whose middle is `pos`. */
  function CarouselIndex(pos: int, offset: int, count: int): int
    requires count > 0
  {
    CsRemainder(pos + offset + count, count)
  }

  /** For a middle inside the list, the five positions shown are in the list,
      wrap around at both ends, and the middle one is `pos` itself. */
  lemma CarouselIndexSpec(pos: int, offset: int, count: int)
    requires 0 <= pos < count && -2 <= offset <= 2
    ensures 0 <= CarouselIndex(pos, offset, count) < count
    ensures CarouselIndex(pos, offset, count) == (pos + offset) % count
    ensures offset == 0 ==> CarouselIndex(pos, offset, count) == pos
  {
    var q := pos + offset;
    if count == 1 {
      ModOne(q);
      ModOne(-(q + 1));
      ModOne(q + 1);
    } else if q < 0 {
      ModSmall(q + count, count);
      ModMinus(q + count, count);
    } else if q < count {
      ModPlus(q, count);
      ModSmall(q, count);
    } else {
      ModPlusTwice(q - count, count);
      ModPlus(q - count, count);
    }
  }

  lemma ModOne(x: int)
    ensures x % 1 == 0
  {
  }

  lemma ModSmall(r: int, n: int)
    requires 0 <= r < n
    ensures r % n == r
  {
  }

  lemma ModMinus(r: int, n: int)
    requires 0 <= r < n
    ensures (r - n) % n == r
  {
  }

  lemma ModPlus(r: int, n: int)
    requires 0 <= r < n
    ensures (r + n) % n == r
  {
    var a := r + n;
    assert a == (a / n) * n + a % n;
  }

  lemma ModPlusTwice(r: int, n: int)
    requires 0 <= r < n
    ensures (r + 2 * n) % n == r
  {
    var a := r + 2 * n;
    assert a == 2 * n + r;
    assert a / n == 2 by {
      assert a == (a / n) * n + a % n;
    }
  }

  /** The first position of `x` in `xs` (`List.IndexOf`), or -1. */
  function FirstIndexOf<T(==)>(xs: seq<T>, x: T): (r: int)
    ensures -1 <= r < |xs|
    ensures r == -1 <==> x !in xs
    ensures 0 <= r ==> xs[r] == x && x !in xs[..r]
  {
    if xs == [] then -1
    else if xs[0] == x then 0
    else
      var k := FirstIndexOf(xs[1..], x);
      assert 0 <= k ==> xs[1..][..k] == xs[1..k + 1];
      if k < 0 then -1 else k + 1
  }

  /** `GetCategoryDisplayName`: the German name of a known category, in any
      letter case; any other text is shown as it is. */
  function CategoryDisplayName(category: string): string {
    var lower := ToLower(category);
    if lower == "human" then "Menschen"
    else if lower == "heroes" then "Helden"
    else if lower == "monster" then "Monster"
    else category
  }

  predicate IsKnownCategory(category: string) {
    var lower := ToLower(category);
    lower == "human" || lower == "heroes" || lower == "monster"
  }

  /** The display name of each known category, in any letter case; it
      gives the three categories three different names and leaves other
      text alone. */
  lemma CategoryDisplayNameSpec(a: string, b: string)
    ensures EqualsIgnoreCase(a, "human") ==> CategoryDisplayName(a) == "Menschen"
    ensures EqualsIgnoreCase(a, "heroes") ==> CategoryDisplayName(a) == "Helden"
    ensures EqualsIgnoreCase(a, "monster") ==> CategoryDisplayName(a) == "Monster"
    ensures IsKnownCategory(a) && EqualsIgnoreCase(a, b) ==> CategoryDisplayName(a) == CategoryDisplayName(b)
    ensures IsKnownCategory(a) && IsKnownCategory(b) && CategoryDisplayName(a) == CategoryDisplayName(b) ==> EqualsIgnoreCase(a, b)
    ensures !IsKnownCategory(a) ==> CategoryDisplayName(a) == a
  {
  }

  /** The age and class text boxes: the number typed when it parses and lies
      in 1..`max`, otherwise 0. */
  function ValidatedNumber(text: string, max: int): (r: Int32) {
    match TryParseInt(text)
    case Some(n) => if 0 < n <= max then n else 0
    case None => 0
  }

  /** The value kept is either 0 or a number in range, and it is a number
      exactly when the text parses to one in range; every number in range,
      typed as `ToString` writes it, is kept. */
  lemma ValidatedNumberSpec(text: string, max: int, n: Int32)
    ensures 0 <= ValidatedNumber(text, max) && (max >= 0 ==> ValidatedNumber(text, max) <= max)
    ensures ValidatedNumber(text, max) > 0 <==> TryParseInt(text).Some? && 0 < TryParseInt(text).value <= max
    ensures ValidatedNumber(text, max) > 0 ==> ValidatedNumber(text, max) == TryParseInt(text).value
    ensures 0 < n <= max ==> ValidatedNumber(IntToString(n), max) == n
  {
    IntToStringRoundTrip(n);
  }

  /** `ValidateSaveButton`: a name that is not blank, a valid age and class,
      and a selected character. */
  predicate CanSave(name: string, age: int, schoolClass: int, category: string, character: string) {
    !IsBlank(name) && age > 0 && schoolClass > 0 && category != [] && character != []
  }

  /** The characters of a category: the file names found in its directory,
      none when the directory is missing. */
  function Listing(listings: map<string, seq<string>>, category: string): seq<string> {
    if category in listings then listings[category] else []
  }

  /** The editor window's state. */
  class CharacterEditor {
    var selectedCategory: string
    var selectedCharacter: string
    var characterName: string
    var characterAge: Int32
    var characterClass: Int32
    /** The middle position of each category's carousel. */
    var carouselPositions: map<string, int>
    /** The characters of each category, by file name without extension. */
    var availableCharacters: map<string, seq<string>>
    /** Whether the save button is enabled. */
    var saveEnabled: bool

    /** Every category has a carousel position, which lies in its list
        unless the list is empty. */
    predicate Valid()
      reads this
    {
      carouselPositions.Keys == availableCharacters.Keys
      && forall c | c in carouselPositions ::
           0 <= carouselPositions[c] && (availableCharacters[c] == [] || carouselPositions[c] < |availableCharacters[c]|)
    }

    /** The constructor: all carousels start at position 0, each category
        holds the characters found in its directory (none when the directory
        is missing), nothing is selected and saving is disabled. */
    constructor (listings: map<string, seq<string>>)
      ensures Valid()
      ensures carouselPositions == map["human" := 0, "heroes" := 0, "monster" := 0]
      ensures availableCharacters.Keys == {"human", "heroes", "monster"}
      ensures forall c | c in availableCharacters :: availableCharacters[c] == Listing(listings, c)
      ensures selectedCategory == [] && selectedCharacter == [] && characterName == []
      ensures characterAge == 0 && characterClass == 0 && !saveEnabled
    {
      selectedCategory, selectedCharacter, characterName := [], [], [];
      characterAge, characterClass := 0, 0;
      carouselPositions := map["human" := 0, "heroes" := 0, "monster" := 0];
      availableCharacters := map["human" := Listing(listings, "human"),
                                 "heroes" := Listing(listings, "heroes"),
                                 "monster" := Listing(listings, "monster")];
      saveEnabled := false;
    }

    /** `ValidateSaveButton`. */
    method ValidateSaveButton()
      modifies this
      ensures saveEnabled == CanSave(characterName, characterAge, characterClass, selectedCategory, selectedCharacter)
      ensures characterName == old(characterName) && characterAge == old(characterAge) && characterClass == old(characterClass)
      ensures selectedCategory == old(selectedCategory) && selectedCharacter == old(selectedCharacter)
      ensures carouselPositions == old(carouselPositions) && availableCharacters == old(availableCharacters)
    {
      saveEnabled := CanSave(characterName, characterAge, characterClass, selectedCategory, selectedCharacter);
    }

    /** `CreateCarousel`: the five characters shown, two on each side of the
        middle one, wrapping around; none when the category is empty. */
    method CreateCarousel(category: string) returns (shown: seq<string>)
      requires Valid()
      ensures category !in availableCharacters || availableCharacters[category] == [] ==> shown == []
      ensures category in availableCharacters && availableCharacters[category] != [] ==>
        var list, pos := availableCharacters[category], carouselPositions[category];
        && |shown| == 5
        && (forall k :: 0 <= k < 5 ==> shown[k] == list[(pos + k - 2) % |list|])
        && shown[2] == list[pos]
    {
      if category !in availableCharacters || |availableCharacters[category]| == 0 {
        return [];
      }
      var characters := availableCharacters[category];
      var currentPos := carouselPositions[category];
      shown := [];
      for i := -2 to 3
        invariant |shown| == i + 2
        invariant forall o :: -2 <= o < i ==> 0 <= CarouselIndex(currentPos, o, |characters|) < |characters|
        invariant forall o :: -2 <= o < i ==> shown[o + 2] == characters[CarouselIndex(currentPos, o, |characters|)]
      {
        CarouselIndexSpec(currentPos, i, |characters|);
        var index := CarouselIndex(currentPos, i, |characters|);
        shown := shown + [characters[index]];
      }
      forall k | 0 <= k < 5
        ensures shown[k] == characters[(currentPos + k - 2) % |characters|]
      {
        CarouselIndexSpec(currentPos, k - 2, |characters|);
        assert shown[(k - 2) + 2] == characters[CarouselIndex(currentPos, k - 2, |characters|)];
      }
      CarouselIndexSpec(currentPos, 0, |characters|);
    }

    /** `OnCharacterSelected`: the selection is recorded; when the character
        is in the category's list, that category's carousel moves to its first
        position there and is shown again. Other carousels never move. */
    method OnCharacterSelected(category: string, name: string) returns (shown: seq<string>)
      requires Valid()
      modifies this
      ensures Valid()
      ensures selectedCategory == category && selectedCharacter == name
      ensures carouselPositions ==
        if category in old(availableCharacters) && name in old(availableCharacters)[category]
        then old(carouselPositions)[category := FirstIndexOf(old(availableCharacters)[category], name)]
        else old(carouselPositions)
      ensures availableCharacters == old(availableCharacters)
      ensures characterName == old(characterName) && characterAge == old(characterAge) && characterClass == old(characterClass)
      ensures saveEnabled == CanSave(characterName, characterAge, characterClass, selectedCategory, selectedCharacter)
    {
      selectedCategory := category;
      selectedCharacter := name;
      shown := [];
      if category in availableCharacters {
        var characters := availableCharacters[category];
        var characterIndex := FirstIndexOf(characters, name);
        if characterIndex >= 0 {
          carouselPositions := carouselPositions[category := characterIndex];
          var lower := ToLower(category);
          if lower == "human" || lower == "heroes" || lower == "monster" {
            shown := CreateCarousel(lower);
          }
        }
      }
      ValidateSaveButton();
    }

    /** `NameTextBox_TextChanged`: the name is kept trimmed. */
    method NameTextChanged(text: string)
      modifies this
      ensures characterName == Trim(text)
      ensures characterAge == old(characterAge) && characterClass == old(characterClass)
      ensures selectedCategory == old(selectedCategory) && selectedCharacter == old(selectedCharacter)
      ensures carouselPositions == old(carouselPositions) && availableCharacters == old(availableCharacters)
      ensures saveEnabled == CanSave(characterName, characterAge, characterClass, selectedCategory, selectedCharacter)
    {
      characterName := Trim(text);
      ValidateSaveButton();
    }

    /** `AgeTextBox_TextChanged`: an age of 1 to 99, otherwise 0. */
    method AgeTextChanged(text: string)
      modifies this
      ensures characterAge == ValidatedNumber(text, 99)
      ensures characterName == old(characterName) && characterClass == old(characterClass)
      ensures selectedCategory == old(selectedCategory) && selectedCharacter == old(selectedCharacter)
      ensures carouselPositions == old(carouselPositions) && availableCharacters == old(availableCharacters)
      ensures saveEnabled == CanSave(characterName, characterAge, characterClass, selectedCategory, selectedCharacter)
    {
      var parsed := TryParseInt(text);
      if parsed.Some? && parsed.value > 0 && parsed.value <= 99 {
        characterAge := parsed.value;
      } else {
        characterAge := 0;
      }
      ValidateSaveButton();
    }

    /** `ClassTextBox_TextChanged`: a class of 1 to 13, otherwise 0. */
    method ClassTextChanged(text: string)
      modifies this
      ensures characterClass == ValidatedNumber(text, 13)
      ensures characterName == old(characterName) && characterAge == old(characterAge)
      ensures selectedCategory == old(selectedCategory) && selectedCharacter == old(selectedCharacter)
      ensures carouselPositions == old(carouselPositions) && availableCharacters == old(availableCharacters)
      ensures saveEnabled == CanSave(characterName, characterAge, characterClass, selectedCategory, selectedCharacter)
    {
      var parsed := TryParseInt(text);
      if parsed.Some? && parsed.value > 0 && parsed.value <= 13 {
        characterClass := parsed.value;
      } else {
        characterClass := 0;
      }
      ValidateSaveButton();
    }

    /** `SaveCharacterButton_Click`: the new character and the name of the
        file it is written to. `digest` is the SHA-256 digest `GenerateHash`
        computes and `now` the creation time. */
    method SaveCharacter(digest: seq<Byte>, now: int) returns (data: CharacterData, fileName: string)
      requires |digest| == 32
      ensures fresh(data)
      ensures data.name == characterName && data.age == characterAge && data.schoolClass == characterClass
      ensures data.category == selectedCategory && data.character == selectedCharacter
      ensures data.createdDate == now && data.hash == HexString(digest[..4]) && |data.hash| == 8
      ensures fileName == SaveFileName(data.name, data.hash)
    {
      var hash := GenerateHash(digest);
      data := new CharacterData(characterName, characterAge, characterClass, selectedCategory, selectedCharacter, now, hash);
      fileName := SaveFileName(characterName, hash);
    }
  }
}
