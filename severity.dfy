/** The anti-national keyword categories and the severity levels built from
    them (src/data/antiNationalKeywords.js).  A level's keyword list is the
    in-order concatenation of its categories' lists. */
module Severity {
  /** The keyword categories. */
  datatype Category =
    DirectAntiNational
    | Separatist
    | AntiConstitutional
    | ReligiousExtremism
    | ViolenceTerrorism
    | AntiSecurityForces
    | EconomicSabotage
    | SocialUnrest
    | RegionalDiscontent
    | ForeignInfluence

  /** The categories in declaration order. */
  const Categories: seq<Category> := [DirectAntiNational, Separatist, AntiConstitutional, ReligiousExtremism, ViolenceTerrorism, AntiSecurityForces, EconomicSabotage, SocialUnrest, RegionalDiscontent, ForeignInfluence]

  /** A category's key in the table. */
  function Key(category: Category): string {
    match category
    case DirectAntiNational => "direct_anti_national"
    case Separatist => "separatist"
    case AntiConstitutional => "anti_constitutional"
    case ReligiousExtremism => "religious_extremism"
    case ViolenceTerrorism => "violence_terrorism"
    case AntiSecurityForces => "anti_security_forces"
    case EconomicSabotage => "economic_sabotage"
    case SocialUnrest => "social_unrest"
    case RegionalDiscontent => "regional_discontent"
    case ForeignInfluence => "foreign_influence"
  }

  /** The keyword list of a category; no list for an unknown key. */
  function CategoryKeywords(category: Category): seq<string> {
    match category
    case DirectAntiNational => ["भारत विरोधी", "anti india", "भारत का दुश्मन", "india ka dushman", "देशद्रोही", "deshdrohi", "traitor", "गद्दार", "gaddar", "भारत तोड़ो", "bharat todo", "break india", "भारत को तोड़ो", "हिंदुस्तान मुर्दाबाद", "hindustan murdabad", "death to india", "भारत को नष्ट करो", "destroy india", "भारत का अंत"]
    case Separatist => ["कश्मीर आज़ादी", "kashmir azadi", "kashmir independence", "पंजाब आज़ादी", "punjab azadi", "khalistan", "खालिस्तान", "असम आज़ादी", "assam azadi", "northeast independence", "तमिलनाडु आज़ादी", "tamil nadu azadi", "dravida nadu", "महाराष्ट्र आज़ादी", "maharashtra azadi", "maratha rajya"]
    case AntiConstitutional => ["संविधान तोड़ो", "break constitution", "संविधान का विरोध", "लोकतंत्र का विरोध", "anti democracy", "democracy murdabad", "चुनाव का विरोध", "anti election", "चुनाव बहिष्कार", "सरकार का विरोध", "anti government", "सरकार गिराओ"]
    case ReligiousExtremism => ["धर्म युद्ध", "religious war", "जिहाद", "jihad", "धर्मांतरण", "conversion", "गौ हत्या", "cow slaughter", "मंदिर तोड़ो", "break temple", "मस्जिद तोड़ो", "break mosque", "हिंदू मुस्लिम दंगा", "hindu muslim riot", "communal violence"]
    case ViolenceTerrorism => ["हिंसा", "violence", "बम", "bomb", "आतंकवाद", "terrorism", "हत्या", "murder", "कत्ल", "killing", "खून", "blood", "अस्त्र शस्त्र", "weapons", "बंदूक", "gun", "पिस्तौल", "pistol", "विस्फोट", "explosion", "ब्लास्ट", "blast"]
    case AntiSecurityForces => ["पुलिस मुर्दाबाद", "police murdabad", "army murdabad", "सेना का विरोध", "anti army", "सेना हटाओ", "remove army", "CRPF मुर्दाबाद", "CRPF murdabad", "BSF murdabad", "सुरक्षा बलों का विरोध", "anti security forces"]
    case EconomicSabotage => ["अर्थव्यवस्था तोड़ो", "break economy", "रुपया गिराओ", "rupee down", "बाजार तोड़ो", "break market", "व्यापार बंद", "stop trade", "निवेश रोको", "stop investment", "विदेशी निवेश रोको"]
    case SocialUnrest => ["जाति युद्ध", "caste war", "जाति भेद", "caste discrimination", "लिंग भेद", "gender discrimination", "महिला उत्पीड़न", "women harassment", "बाल श्रम", "child labor", "गरीबी", "poverty exploitation", "अशिक्षा", "illiteracy", "अंधविश्वास", "superstition"]
    case RegionalDiscontent => ["मध्य प्रदेश अलग", "MP separate", "मध्य प्रदेश आज़ादी", "भोपाल अलग", "bhopal separate", "इंदौर अलग", "indore separate", "क्षेत्रीय भेदभाव", "regional discrimination", "केंद्र का विरोध"]
    case ForeignInfluence => ["पाकिस्तान जिंदाबाद", "pakistan zindabad", "चीन जिंदाबाद", "china zindabad", "अमेरिका का समर्थन", "america support", "विदेशी साजिश", "foreign conspiracy", "भारत को बेचो", "sell india", "विदेशी एजेंट", "foreign agent"]
  }

  datatype Level = Level(name: string, categories: seq<Category>, weight: nat, color: string, description: string)

  /** The levels in declaration order. */
  const Levels: seq<Level> := [
    Level("CRITICAL", [DirectAntiNational, Separatist, ViolenceTerrorism], 10, "#FF0000",
          "Immediate threat to national security"),
    Level("HIGH", [AntiConstitutional, ReligiousExtremism, AntiSecurityForces], 8, "#FF4500",
          "Serious threat to law and order"),
    Level("MEDIUM", [EconomicSabotage, SocialUnrest, ForeignInfluence], 6, "#FFA500",
          "Potential threat to social harmony"),
    Level("LOW", [RegionalDiscontent], 4, "#FFFF00",
          "Regional discontent requiring attention")
  ]

  /** The spread of the listed categories' lists, in order, each list
      looked up by `lists`. */
  function Spread(categories: seq<Category>, lists: Category -> seq<string>): (r: seq<string>)
    ensures categories == [] ==> r == []
  {
    if categories == [] then []
    else Spread(categories[..|categories| - 1], lists) + lists(categories[|categories| - 1])
  }

  /** A level's `keywords` field. */
  function Keywords(level: Level): seq<string> {
    Spread(level.categories, CategoryKeywords)
  }

  /** Four levels, named and weighted as declared, weights strictly
      decreasing from the first to the last. */
  lemma LevelsByWeight()
    ensures |Levels| == 4
    ensures Levels[0].name == "CRITICAL" && Levels[1].name == "HIGH" && Levels[2].name == "MEDIUM" && Levels[3].name == "LOW"
    ensures Levels[0].weight == 10 && Levels[1].weight == 8 && Levels[2].weight == 6 && Levels[3].weight == 4
    ensures forall i, j :: 0 <= i < j < |Levels| ==> Levels[i].weight > Levels[j].weight
  {
  }

  /** No two levels share a colour. */
  lemma ColoursDistinct()
    ensures forall i, j :: 0 <= i < j < |Levels| ==> Levels[i].color != Levels[j].color
  {
  }

  /** The level a category feeds, by position. */
  function Home(category: Category): (i: nat)
    ensures i < |Levels| && category in Levels[i].categories
  {
    match category
    case DirectAntiNational | Separatist | ViolenceTerrorism => 0
    case AntiConstitutional | ReligiousExtremism | AntiSecurityForces => 1
    case EconomicSabotage | SocialUnrest | ForeignInfluence => 2
    case RegionalDiscontent => 3
  }

  /** The levels partition the categories: every category is declared, and
      feeds its home level and no other. */
  lemma CategoriesPartitioned(c: Category)
    ensures c in Categories
    ensures forall j :: 0 <= j < |Levels| && c in Levels[j].categories ==> j == Home(c)
  {
  }

  /** Category `k`'s list sits in the spread right after the lists of the
      categories before it. */
  lemma {:induction false} SpreadSlice(categories: seq<Category>, lists: Category -> seq<string>, k: nat)
    requires k < |categories|
    ensures var at := |Spread(categories[..k], lists)|;
      at + |lists(categories[k])| <= |Spread(categories, lists)| &&
      Spread(categories, lists)[at..at + |lists(categories[k])|] == lists(categories[k])
  {
    var n := |categories| - 1;
    var front := categories[..n];
    if k < n {
      assert front[..k] == categories[..k];
      SpreadSlice(front, lists, k);
    } else {
      assert front == categories[..k];
    }
  }

  /** Every keyword of a listed category is in the spread; with
      `CategoryKeywords`, every keyword of a category a level lists is one
      of that level's `Keywords`. */
  lemma SpreadHas(categories: seq<Category>, lists: Category -> seq<string>, k: nat, w: string)
    requires k < |categories| && w in lists(categories[k])
    ensures w in Spread(categories, lists)
  {
    SpreadSlice(categories, lists, k);
    var at := |Spread(categories[..k], lists)|;
    var i :| 0 <= i < |lists(categories[k])| && lists(categories[k])[i] == w;
    assert Spread(categories, lists)[at + i] == w;
  }
}
