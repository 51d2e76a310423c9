/** Crop classification for the record list: each entry is shown with an
    icon chosen from its crop name. */
module Crops {
  import opened Text

  /** The icon categories, in the order the name is searched for them. */
  datatype Category = Corn | Soy | Wheat | Bean | Other

  /** The lower-case word that selects each category (`Other` has none). */
  function Keyword(c: Category): string {
    match c
    case Corn => "milho"
    case Soy => "soja"
    case Wheat => "trigo"
    case Bean => "feij\U{E3}o"
    case Other => ""
  }

  /** Position of the category in the test order. */
  function Rank(c: Category): nat {
    match c
    case Corn => 0
    case Soy => 1
    case Wheat => 2
    case Bean => 3
    case Other => 4
  }

  /** `getCropEmoji`'s choice: the lower-cased name is searched for each
      keyword in turn and the first that occurs wins; with none, `Other`.
      `lower` is the host's `toLowerCase`. */
  function Classify(crop: string, lower: string -> string): (c: Category)
    ensures c != Other ==> Contains(lower(crop), Keyword(c))
    ensures forall d :: Rank(d) < Rank(c) ==> !Contains(lower(crop), Keyword(d))
  {
    var name := lower(crop);
    if Contains(name, "milho") then Corn
    else if Contains(name, "soja") then Soy
    else if Contains(name, "trigo") then Wheat
    else if Contains(name, "feij\U{E3}o") then Bean
    else Other
  }

  /** First match wins: whatever else the name holds, a name whose
      lower-cased form holds a keyword is never put in a later category,
      so a name holding both `milho` and `soja` is corn. */
  lemma FirstMatchWins(crop: string, lower: string -> string, c: Category)
    requires c != Other && Contains(lower(crop), Keyword(c))
    ensures Rank(Classify(crop, lower)) <= Rank(c)
  {
  }

  lemma CornBeforeSoy(crop: string, lower: string -> string)
    requires Contains(lower(crop), "milho") && Contains(lower(crop), "soja")
    ensures Classify(crop, lower) == Corn
  {
    FirstMatchWins(crop, lower, Corn);
  }

  /** The default category is chosen exactly when no keyword occurs. */
  lemma OtherIffNoKeyword(crop: string, lower: string -> string)
    ensures Classify(crop, lower) == Other <==>
      forall d :: d != Other ==> !Contains(lower(crop), Keyword(d))
  {
    var c := Classify(crop, lower);
    if c != Other {
      assert Contains(lower(crop), Keyword(c));
    }
  }

  /** The icon drawn for each category: a single pictograph. */
  function Emoji(c: Category): (e: string)
    ensures |e| == 1 && e[0] in {'\U{1F330}', '\U{1F331}', '\U{1F33D}', '\U{1F33E}', '\U{1F33F}'}
  {
    match c
    case Corn => "\U{1F33D}"
    case Soy => "\U{1F331}"
    case Wheat => "\U{1F33E}"
    case Bean => "\U{1F330}"
    case Other => "\U{1F33F}"
  }

  /** Different categories are drawn with different icons. */
  lemma EmojiInjective(c: Category, d: Category)
    requires Emoji(c) == Emoji(d)
    ensures c == d
  {
  }

  /** `getCropEmoji`: the icon of the crop's category. First match holds at
      the level of icons too: the icon is that of the first keyword, in the
      test order, that the lower-cased name holds (so a name holding `milho`
      gets the corn icon whatever else it holds), and the default icon is
      drawn exactly when no keyword occurs. */
  function CropEmoji(crop: string, lower: string -> string): (e: string)
    ensures forall c ::
      (c != Other && Contains(lower(crop), Keyword(c))
       && (forall d :: Rank(d) < Rank(c) ==> !Contains(lower(crop), Keyword(d))))
      ==> e == Emoji(c)
    ensures Contains(lower(crop), "milho") ==> e == "\U{1F33D}"
    ensures e == "\U{1F33F}" <==> forall d :: d != Other ==> !Contains(lower(crop), Keyword(d))
  {
    var c := Classify(crop, lower);
    OtherIffNoKeyword(crop, lower);
    Emoji(c)
  }
}
