/**
 * What the endpoints make of a request body before any cache access or
 * provider call: the `/chat` message list, the animal request shared by
 * `/clues` and `/facts`, the reply language, and the `/clues` cache key.
 */
module Validation {
  import opened Wrappers
  import opened JsValues

  const AnimalNameRequired: string := "animalName required"
  const MessagesRequired: string := "messages[] required"
  const English: string := "English"
  const Swedish: string := "Swedish"

  /** The fields `/clues` and `/facts` destructure from `req.body || {}`, `isEnglish` defaulting to `false`. */
  datatype AnimalRequest = AnimalRequest(
    animalName: string,
    scientificName: JsValue,
    description: JsValue,
    isEnglish: JsValue)

  /** The `animalName` field as the destructuring sees it. */
  function AnimalNameField(body: JsValue): JsValue {
    Property(OrEmptyObject(body), "animalName")
  }

  /**
   * Destructure and check a `/clues` or `/facts` body: `animalName` must be a
   * non-empty string; anything else is refused with "animalName required".
   */
  function ParseAnimalRequest(body: JsValue): (r: Result<AnimalRequest, string>)
    ensures r.Ok? <==> AnimalNameField(body).Str? && AnimalNameField(body).s != ""
    ensures r.Err? ==> r.error == AnimalNameRequired
    ensures r.Ok? ==> r.value.animalName == AnimalNameField(body).s
    ensures r.Ok? ==>
      var fields := OrEmptyObject(body);
      && r.value.scientificName == Property(fields, "scientificName")
      && r.value.description == Property(fields, "description")
      && (Property(fields, "isEnglish").Undefined? ==> r.value.isEnglish == Bool(false))
      && (!Property(fields, "isEnglish").Undefined? ==> r.value.isEnglish == Property(fields, "isEnglish"))
  {
    var fields := OrEmptyObject(body);
    var name := Property(fields, "animalName");
    var isEnglish := Property(fields, "isEnglish");
    if !Truthy(name) || !name.Str? then Err(AnimalNameRequired)
    else
      Ok(AnimalRequest(
        name.s,
        Property(fields, "scientificName"),
        Property(fields, "description"),
        if isEnglish.Undefined? then Bool(false) else isEnglish))
  }

  /** How `/chat` reads its body: `const { messages } = req.body`, then `Array.isArray(messages)`. */
  datatype ChatInput =
    | NoBody        // destructuring `undefined` or `null` throws
    | NotAnArray    // `messages` is missing or not an array
    | Messages(items: seq<JsValue>)

  function ParseChatRequest(body: JsValue): (r: ChatInput)
    ensures r.NoBody? <==> body.Undefined? || body.Null?
    ensures r.Messages? <==> body.Obj? && "messages" in body.fields && body.fields["messages"].Arr?
    ensures r.Messages? ==> body.fields["messages"] == Arr(r.items)
  {
    if body.Undefined? || body.Null? then NoBody
    else
      match Property(body, "messages")
      case Arr(items) => Messages(items)
      case _ => NotAnArray
  }

  /** `isEnglish ? 'English' : 'Swedish'`. */
  function Language(isEnglish: JsValue): string {
    if Truthy(isEnglish) then English else Swedish
  }

  /**
   * `${scientificName || ''}`: the text of a truthy scientific name, else the
   * empty string; `None` when the conversion throws.
   */
  function SecondaryText(scientificName: JsValue): (r: Option<string>)
    ensures r.None? <==> ToStringThrows(scientificName)
  {
    if Truthy(scientificName) then ToJsString(scientificName) else Some("")
  }

  /** The `/clues` cache key `${animalName}::${scientificName || ''}::${language}`. */
  function Key(animalName: string, secondary: string, language: string): string {
    animalName + "::" + secondary + "::" + language
  }

  /** The key of an accepted request; `None` when building it throws, which only the scientific name can make it do. */
  function CacheKeyOf(req: AnimalRequest): (r: Option<string>)
    ensures r.None? <==> ToStringThrows(req.scientificName)
  {
    match SecondaryText(req.scientificName)
    case None => None
    case Some(secondary) => Some(Key(req.animalName, secondary, Language(req.isEnglish)))
  }

  /**
   * Whether the user prompt of `/clues` or `/facts` throws while it is built:
   * `${scientificName || 'Unknown'}` or `${description || 'No description'}`
   * throws.  A falsy value is replaced by the default text and never throws.
   */
  predicate PromptThrows(req: AnimalRequest) {
    ToStringThrows(req.scientificName) || ToStringThrows(req.description)
  }

  /** The language is English exactly for a truthy `isEnglish`, and Swedish otherwise. */
  lemma LanguageChoice(isEnglish: JsValue)
    ensures Language(isEnglish) == English <==> Truthy(isEnglish)
    ensures Language(isEnglish) == Swedish <==> !Truthy(isEnglish)
  {
  }

  /** An accepted body without `isEnglish` asks for Swedish, through the `false` default. */
  lemma LanguageDefaultsToSwedish(body: JsValue)
    requires ParseAnimalRequest(body).Ok?
    requires !OrEmptyObject(body).Obj? || "isEnglish" !in OrEmptyObject(body).fields
    ensures ParseAnimalRequest(body).value.isEnglish == Bool(false)
    ensures Language(ParseAnimalRequest(body).value.isEnglish) == Swedish
  {
  }

  /** The flag is read by truthiness, not compared with `true`: the strings "false" and "0" ask for English, the number 0 for Swedish. */
  lemma LanguageIsTruthiness()
    ensures Language(Str("false")) == English && Language(Str("0")) == English
    ensures Language(Num(0)) == Swedish && Language(Str("")) == Swedish
  {
  }

  /**
   * The key depends on the animal name, the scientific-name text and the
   * language only: requests that agree on those three share a key, whatever
   * their descriptions, and any falsy scientific name reads as an absent one.
   */
  lemma KeyDependsOnTriple(a: AnimalRequest, b: AnimalRequest)
    requires a.animalName == b.animalName
    requires SecondaryText(a.scientificName) == SecondaryText(b.scientificName)
    requires Truthy(a.isEnglish) == Truthy(b.isEnglish)
    ensures CacheKeyOf(a) == CacheKeyOf(b)
    ensures !Truthy(a.scientificName) ==> CacheKeyOf(a) == Some(Key(a.animalName, "", Language(a.isEnglish)))
  {
  }

  /** How the scientific name enters the key: a non-empty string verbatim, any falsy value as nothing. */
  lemma ScientificNameText(s: string)
    ensures s != "" ==> SecondaryText(Str(s)) == Some(s)
    ensures SecondaryText(Undefined) == Some("") && SecondaryText(Null) == Some("") && SecondaryText(Num(0)) == Some("") && SecondaryText(Str("")) == Some("")
  {
  }

  /** A truthy number enters the key in decimal. */
  lemma NumericScientificName()
    ensures SecondaryText(Num(-12)) == Some("-12")
  {
    assert Digits(1) == "1" && DigitChar(2) == '2';
    assert Digits(12) == Digits(1) + [DigitChar(2)] == "12";
    assert ToJsString(Num(-12)) == Some("-" + Digits(12));
    assert "-" + "12" == "-12";
  }

  /** An array enters the key as its items joined by commas, `null` items as nothing. */
  lemma ArrayScientificName()
    ensures SecondaryText(Arr([Str("a"), Null, Str("b")])) == Some("a,,b")
  {
    var items := [Str("a"), Null, Str("b")];
    var whole := Arr(items);
    JoinFirst(whole);
    assert items[..2] == [Str("a"), Null];
    assert ToJsString(Str("b")) == Some("b");
    assert JoinItems(whole, items) == Some(JoinItems(whole, items[..2]).value + "," + "b");
    assert "a," + "," + "b" == "a,,b";
  }

  lemma JoinFirst(whole: JsValue)
    requires whole == Arr([Str("a"), Null, Str("b")])
    ensures JoinItems(whole, [Str("a"), Null]) == Some("a,")
  {
    assert [Str("a"), Null][..1] == [Str("a")];
    assert ToJsString(Str("a")) == Some("a");
    assert JoinItems(whole, [Str("a")]) == Some("a");
    assert "a" + "," + "" == "a,";
  }

  /**
   * A scientific name with its own `toString` member, even one nested in an
   * array, makes the key throw; an own `valueOf` member does not, since the
   * inherited `toString` still answers "[object Object]".
   */
  lemma ThrowingScientificName()
    ensures SecondaryText(Obj(map["toString" := Num(1)])) == None
    ensures SecondaryText(Arr([Str("a"), Arr([Obj(map["toString" := Num(1)])])])) == None
    ensures SecondaryText(Obj(map["valueOf" := Num(1)])) == Some("[object Object]")
  {
    var inner := Obj(map["toString" := Num(1)]);
    assert ToStringThrows(inner);
    assert ToStringThrows(Arr([inner])) by { assert [inner][0] == inner; }
    var outer := [Str("a"), Arr([inner])];
    assert outer[1] == Arr([inner]);
  }

  /**
   * For animal names without a colon the key can be decoded: equal keys come
   * from equal (name, scientific-name text, language) triples.
   */
  lemma KeyInjective(a1: string, s1: string, l1: string, a2: string, s2: string, l2: string)
    requires ':' !in a1 && ':' !in a2
    requires l1 in {English, Swedish} && l2 in {English, Swedish}
    requires Key(a1, s1, l1) == Key(a2, s2, l2)
    ensures a1 == a2 && s1 == s2 && l1 == l2
  {
    var r1 := KeyParts(a1, s1, l1);
    var r2 := KeyParts(a2, s2, l2);
    ColonFreePrefix(a1, r1, a2, r2);
    assert |l1| == |l2|;
    SuffixSplit(s1 + "::", l1, s2 + "::", l2);
    SuffixSplit(s1, "::", s2, "::");
  }

  /** A key is the animal name followed by a colon-led rest, which after its "::" is the rest of the key. */
  lemma KeyParts(a: string, s: string, l: string) returns (r: string)
    ensures Key(a, s, l) == a + r
    ensures |r| >= 2 && r[0] == ':' && r[2..] == s + "::" + l
  {
    r := "::" + (s + "::" + l);
    assert Key(a, s, l) == a + r;
  }

  /** Two concatenations with equally long ends split the same way: the language ends the key, seven characters long. */
  lemma SuffixSplit(p1: string, l1: string, p2: string, l2: string)
    requires |l1| == |l2|
    requires p1 + l1 == p2 + l2
    ensures p1 == p2 && l1 == l2
  {
    var k := p1 + l1;
    assert p1 == k[..|p1|] && p2 == k[..|p2|];
    assert l1 == k[|p1|..] && l2 == k[|p2|..];
  }

  /** Two strings that each start with a colon-free part followed by a colon split the same way. */
  lemma ColonFreePrefix(a1: string, r1: string, a2: string, r2: string)
    requires ':' !in a1 && ':' !in a2
    requires |r1| > 0 && r1[0] == ':' && |r2| > 0 && r2[0] == ':'
    requires a1 + r1 == a2 + r2
    ensures a1 == a2 && r1 == r2
  {
    var k := a1 + r1;
    assert k[|a1|] == ':' && k[|a2|] == ':';
    assert forall i :: 0 <= i < |a1| ==> k[i] == a1[i];
    assert forall i :: 0 <= i < |a2| ==> k[i] == a2[i];
    assert |a1| == |a2|;
    assert a1 == k[..|a1|] && a2 == k[..|a2|];
    assert r1 == k[|a1|..] && r2 == k[|a2|..];
  }

  /** Without that restriction keys collide: a name holding "::" can answer for another animal. */
  lemma KeyCollidesOnSeparator()
    ensures Key("a::b", "", Swedish) == Key("a", "b::", Swedish)
  {
  }
}
