/** The gazetteer of src/data/mpDistricts.js: the districts of Madhya
    Pradesh in declaration order, each with its id, the keywords that name
    it and the places next to it.  Declaration order matters: the locator
    takes the first district that matches. */
module Districts {
  import opened JsText

  /** One entry; `neighboring` may name places outside the table, and may
      repeat a name. */
  datatype District = District(name: string, id: string, keywords: seq<string>, neighboring: seq<string>)

  const Count := 50

  /** Entries 0 to 4. */
  function Part0(j: nat): District
    requires j < 5
  {
    match j
      case 0 => District("Bhopal", "bhopal", ["bhopal", "भोपाल", "bhopal city", "bhopal district"], ["Raisen", "Sehore", "Vidisha"])
      case 1 => District("Indore", "indore", ["indore", "इंदौर", "indore city", "indore district"], ["Dewas", "Ujjain", "Dhar"])
      case 2 => District("Gwalior", "gwalior", ["gwalior", "ग्वालियर", "gwalior city", "gwalior district"], ["Shivpuri", "Datia", "Morena"])
      case 3 => District("Jabalpur", "jabalpur", ["jabalpur", "जबलपुर", "jabalpur city", "jabalpur district"], ["Katni", "Narsinghpur", "Mandla"])
      case _ => District("Ujjain", "ujjain", ["ujjain", "उज्जैन", "ujjain city", "ujjain district"], ["Indore", "Dewas", "Ratlam"])
  }

  /** Entries 5 to 9. */
  function Part1(j: nat): District
    requires j < 5
  {
    match j
      case 0 => District("Sagar", "sagar", ["sagar", "सागर", "sagar city", "sagar district"], ["Damoh", "Tikamgarh", "Chhatarpur"])
      case 1 => District("Rewa", "rewa", ["rewa", "रीवा", "rewa city", "rewa district"], ["Satna", "Sidhi", "Shahdol"])
      case 2 => District("Satna", "satna", ["satna", "सतना", "satna city", "satna district"], ["Rewa", "Panna", "Chhatarpur"])
      case 3 => District("Morena", "morena", ["morena", "मुरैना", "morena city", "morena district"], ["Gwalior", "Bhind", "Sheopur"])
      case _ => District("Bhind", "bhind", ["bhind", "भिंड", "bhind city", "bhind district"], ["Morena", "Datia", "Gwalior"])
  }

  /** Entries 10 to 14. */
  function Part2(j: nat): District
    requires j < 5
  {
    match j
      case 0 => District("Chhatarpur", "chhatarpur", ["chhatarpur", "छतरपुर", "chhatarpur city", "chhatarpur district"], ["Sagar", "Tikamgarh", "Panna"])
      case 1 => District("Panna", "panna", ["panna", "पन्ना", "panna city", "panna district"], ["Chhatarpur", "Satna", "Damoh"])
      case 2 => District("Damoh", "damoh", ["damoh", "दमोह", "damoh city", "damoh district"], ["Sagar", "Panna", "Katni"])
      case 3 => District("Katni", "katni", ["katni", "कटनी", "katni city", "katni district"], ["Damoh", "Jabalpur", "Umaria"])
      case _ => District("Umaria", "umaria", ["umaria", "उमरिया", "umaria city", "umaria district"], ["Katni", "Shahdol", "Anuppur"])
  }

  /** Entries 15 to 19. */
  function Part3(j: nat): District
    requires j < 5
  {
    match j
      case 0 => District("Shahdol", "shahdol", ["shahdol", "शहडोल", "shahdol city", "shahdol district"], ["Umaria", "Anuppur", "Sidhi"])
      case 1 => District("Sidhi", "sidhi", ["sidhi", "सीधी", "sidhi city", "sidhi district"], ["Shahdol", "Rewa", "Singrauli"])
      case 2 => District("Singrauli", "singrauli", ["singrauli", "सिंगरौली", "singrauli city", "singrauli district"], ["Sidhi", "Sonbhadra"])
      case 3 => District("Anuppur", "anuppur", ["anuppur", "अनूपपुर", "anuppur city", "anuppur district"], ["Shahdol", "Umaria", "Dindori"])
      case _ => District("Dindori", "dindori", ["dindori", "डिंडोरी", "dindori city", "dindori district"], ["Anuppur", "Mandla", "Balaghat"])
  }

  /** Entries 20 to 24. */
  function Part4(j: nat): District
    requires j < 5
  {
    match j
      case 0 => District("Mandla", "mandla", ["mandla", "मंडला", "mandla city", "mandla district"], ["Dindori", "Jabalpur", "Seoni"])
      case 1 => District("Seoni", "seoni", ["seoni", "सिवनी", "seoni city", "seoni district"], ["Mandla", "Balaghat", "Chhindwara"])
      case 2 => District("Balaghat", "balaghat", ["balaghat", "बालाघाट", "balaghat city", "balaghat district"], ["Seoni", "Chhindwara", "Gondia"])
      case 3 => District("Chhindwara", "chhindwara", ["chhindwara", "छिंदवाड़ा", "chhindwara city", "chhindwara district"], ["Balaghat", "Seoni", "Betul"])
      case _ => District("Betul", "betul", ["betul", "बैतूल", "betul city", "betul district"], ["Chhindwara", "Hoshangabad", "Harda"])
  }

  /** Entries 25 to 29. */
  function Part5(j: nat): District
    requires j < 5
  {
    match j
      case 0 => District("Harda", "harda", ["harda", "हरदा", "harda city", "harda district"], ["Betul", "Hoshangabad", "Sehore"])
      case 1 => District("Hoshangabad", "hoshangabad", ["hoshangabad", "होशंगाबाद", "hoshangabad city", "hoshangabad district"], ["Harda", "Betul", "Raisen"])
      case 2 => District("Raisen", "raisen", ["raisen", "रायसेन", "raisen city", "raisen district"], ["Hoshangabad", "Bhopal", "Vidisha"])
      case 3 => District("Vidisha", "vidisha", ["vidisha", "विदिशा", "vidisha city", "vidisha district"], ["Raisen", "Bhopal", "Sagar"])
      case _ => District("Sehore", "sehore", ["sehore", "सीहोर", "sehore city", "sehore district"], ["Harda", "Bhopal", "Raisen"])
  }

  /** Entries 30 to 34. */
  function Part6(j: nat): District
    requires j < 5
  {
    match j
      case 0 => District("Dewas", "dewas", ["dewas", "देवास", "dewas city", "dewas district"], ["Indore", "Ujjain", "Shajapur"])
      case 1 => District("Shajapur", "shajapur", ["shajapur", "शाजापुर", "shajapur city", "shajapur district"], ["Dewas", "Ujjain", "Rajgarh"])
      case 2 => District("Rajgarh", "rajgarh", ["rajgarh", "राजगढ़", "rajgarh city", "rajgarh district"], ["Shajapur", "Biaora", "Vidisha"])
      case 3 => District("Dhar", "dhar", ["dhar", "धार", "dhar city", "dhar district"], ["Indore", "Jhabua", "Barwani"])
      case _ => District("Jhabua", "jhabua", ["jhabua", "झाबुआ", "jhabua city", "jhabua district"], ["Dhar", "Barwani", "Alirajpur"])
  }

  /** Entries 35 to 39. */
  function Part7(j: nat): District
    requires j < 5
  {
    match j
      case 0 => District("Alirajpur", "alirajpur", ["alirajpur", "अलीराजपुर", "alirajpur city", "alirajpur district"], ["Jhabua", "Barwani", "Dhar"])
      case 1 => District("Barwani", "barwani", ["barwani", "बड़वानी", "barwani city", "barwani district"], ["Alirajpur", "Dhar", "Khargone"])
      case 2 => District("Khargone", "khargone", ["khargone", "खरगोन", "khargone city", "khargone district"], ["Barwani", "Burhanpur", "Khandwa"])
      case 3 => District("Burhanpur", "burhanpur", ["burhanpur", "बुरहानपुर", "burhanpur city", "burhanpur district"], ["Khargone", "Khandwa", "Betul"])
      case _ => District("Khandwa", "khandwa", ["khandwa", "खंडवा", "khandwa city", "khandwa district"], ["Burhanpur", "Khargone", "Harda"])
  }

  /** Entries 40 to 44. */
  function Part8(j: nat): District
    requires j < 5
  {
    match j
      case 0 => District("Narsinghpur", "narsinghpur", ["narsinghpur", "नरसिंहपुर", "narsinghpur city", "narsinghpur district"], ["Jabalpur", "Chhindwara", "Seoni"])
      case 1 => District("Tikamgarh", "tikamgarh", ["tikamgarh", "टीकमगढ़", "tikamgarh city", "tikamgarh district"], ["Chhatarpur", "Sagar", "Chhatarpur"])
      case 2 => District("Datia", "datia", ["datia", "दतिया", "datia city", "datia district"], ["Gwalior", "Bhind", "Jhansi"])
      case 3 => District("Shivpuri", "shivpuri", ["shivpuri", "शिवपुरी", "shivpuri city", "shivpuri district"], ["Gwalior", "Guna", "Sheopur"])
      case _ => District("Guna", "guna", ["guna", "गुना", "guna city", "guna district"], ["Shivpuri", "Ashoknagar", "Vidisha"])
  }

  /** Entries 45 to 49. */
  function Part9(j: nat): District
    requires j < 5
  {
    match j
      case 0 => District("Ashoknagar", "ashoknagar", ["ashoknagar", "अशोकनगर", "ashoknagar city", "ashoknagar district"], ["Guna", "Vidisha", "Sagar"])
      case 1 => District("Sheopur", "sheopur", ["sheopur", "श्योपुर", "sheopur city", "sheopur district"], ["Shivpuri", "Morena", "Karauli"])
      case 2 => District("Ratlam", "ratlam", ["ratlam", "रतलाम", "ratlam city", "ratlam district"], ["Ujjain", "Mandsaur", "Neemuch"])
      case 3 => District("Mandsaur", "mandsaur", ["mandsaur", "मंदसौर", "mandsaur city", "mandsaur district"], ["Ratlam", "Neemuch", "Jhalawar"])
      case _ => District("Neemuch", "neemuch", ["neemuch", "नीमच", "neemuch city", "neemuch district"], ["Mandsaur", "Chittorgarh", "Mandsaur"])
  }

  /** The entry declared at position `i`. */
  function Entry(i: nat): District
    requires i < Count
  {
    if i < 5 then Part0(i - 0)
    else if i < 10 then Part1(i - 5)
    else if i < 15 then Part2(i - 10)
    else if i < 20 then Part3(i - 15)
    else if i < 25 then Part4(i - 20)
    else if i < 30 then Part5(i - 25)
    else if i < 35 then Part6(i - 30)
    else if i < 40 then Part7(i - 35)
    else if i < 45 then Part8(i - 40)
    else Part9(i - 45)
  }

  /** The table in declaration order. */
  function MpDistricts(): (r: seq<District>)
    ensures |r| == Count && forall i :: 0 <= i < Count ==> r[i] == Entry(i)
  {
    seq(Count, i requires 0 <= i < Count => Entry(i))
  }

  /** An entry's id is its name in lower case, and its first keyword is its id. */
  predicate WellNamed(d: District) {
    ToLower(d.name) == d.id && |d.keywords| > 0 && d.keywords[0] == d.id
  }

  lemma Part0WellNamed()
    ensures forall j :: 0 <= j < 5 ==> WellNamed(Part0(j))
  {
    assert WellNamed(Part0(0)) && WellNamed(Part0(1)) && WellNamed(Part0(2)) && WellNamed(Part0(3)) && WellNamed(Part0(4));
  }

  lemma Part1WellNamed()
    ensures forall j :: 0 <= j < 5 ==> WellNamed(Part1(j))
  {
    assert WellNamed(Part1(0)) && WellNamed(Part1(1)) && WellNamed(Part1(2)) && WellNamed(Part1(3)) && WellNamed(Part1(4));
  }

  lemma Part2WellNamed()
    ensures forall j :: 0 <= j < 5 ==> WellNamed(Part2(j))
  {
    assert WellNamed(Part2(0)) && WellNamed(Part2(1)) && WellNamed(Part2(2)) && WellNamed(Part2(3)) && WellNamed(Part2(4));
  }

  lemma Part3WellNamed()
    ensures forall j :: 0 <= j < 5 ==> WellNamed(Part3(j))
  {
    assert WellNamed(Part3(0)) && WellNamed(Part3(1)) && WellNamed(Part3(2)) && WellNamed(Part3(3)) && WellNamed(Part3(4));
  }

  lemma Part4WellNamed()
    ensures forall j :: 0 <= j < 5 ==> WellNamed(Part4(j))
  {
    assert WellNamed(Part4(0)) && WellNamed(Part4(1)) && WellNamed(Part4(2)) && WellNamed(Part4(3)) && WellNamed(Part4(4));
  }

  lemma Part5WellNamed()
    ensures forall j :: 0 <= j < 5 ==> WellNamed(Part5(j))
  {
    assert WellNamed(Part5(0)) && WellNamed(Part5(1)) && WellNamed(Part5(2)) && WellNamed(Part5(3)) && WellNamed(Part5(4));
  }

  lemma Part6WellNamed()
    ensures forall j :: 0 <= j < 5 ==> WellNamed(Part6(j))
  {
    assert WellNamed(Part6(0)) && WellNamed(Part6(1)) && WellNamed(Part6(2)) && WellNamed(Part6(3)) && WellNamed(Part6(4));
  }

  lemma Part7WellNamed()
    ensures forall j :: 0 <= j < 5 ==> WellNamed(Part7(j))
  {
    assert WellNamed(Part7(0)) && WellNamed(Part7(1)) && WellNamed(Part7(2)) && WellNamed(Part7(3)) && WellNamed(Part7(4));
  }

  lemma Part8WellNamed()
    ensures forall j :: 0 <= j < 5 ==> WellNamed(Part8(j))
  {
    assert WellNamed(Part8(0)) && WellNamed(Part8(1)) && WellNamed(Part8(2)) && WellNamed(Part8(3)) && WellNamed(Part8(4));
  }

  lemma Part9WellNamed()
    ensures forall j :: 0 <= j < 5 ==> WellNamed(Part9(j))
  {
    assert WellNamed(Part9(0)) && WellNamed(Part9(1)) && WellNamed(Part9(2)) && WellNamed(Part9(3)) && WellNamed(Part9(4));
  }

  /** Every entry is well named. */
  lemma AllWellNamed()
    ensures forall i :: 0 <= i < |MpDistricts()| ==> WellNamed(MpDistricts()[i])
  {
    Part0WellNamed(); Part1WellNamed(); Part2WellNamed(); Part3WellNamed(); Part4WellNamed();
    Part5WellNamed(); Part6WellNamed(); Part7WellNamed(); Part8WellNamed(); Part9WellNamed();
    forall i | 0 <= i < |MpDistricts()| ensures WellNamed(MpDistricts()[i]) {
      assert MpDistricts()[i] == Entry(i);
    }
  }
}
