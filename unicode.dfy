// unicode.kt: line separators, whitespace, and the two alias tables used to
// normalise `\p{...}` names. The ICU sets are a parameter of the model.

module Unicode {
  import opened Utils

  /**
   * Membership in the ICU set named by a property expression, as
   * `getUnicodeClass(name).contains(cp)` answers it.
   */
  type UnicodeSets = (string, int) -> bool

  /** 0x0A, 0x0D, 0x2028 and 0x2029. */
  predicate IsLineSeparator(cp: int)
  {
    cp == 0xa || cp == 0xd || 0x2028 <= cp <= 0x2029
  }

  predicate IsWhitespace(cp: int, sets: UnicodeSets)
  {
    cp == '\t' as int || 0xb <= cp <= 0xc || cp == 0xfeff
    || IsLineSeparator(cp) || sets("Space_Separator", cp)
  }

  /** Apart from the fixed code points, whitespace is decided by Space_Separator alone. */
  lemma WhitespaceDependsOnlyOnSpaceSeparator(cp: int, s1: UnicodeSets, s2: UnicodeSets)
    requires s1("Space_Separator", cp) == s2("Space_Separator", cp)
    ensures IsWhitespace(cp, s1) == IsWhitespace(cp, s2)
    ensures (cp == 9 || cp == 0xb || cp == 0xc || cp == 0xfeff || IsLineSeparator(cp))
            ==> IsWhitespace(cp, s1)
  {
  }

  /**
   * The value a Kotlin `mapOf(pairs)` associates with `key`: the last pair
   * with that key wins.
   */
  function Lookup(table: seq<(string, string)>, key: string): (r: Option<string>)
    ensures r.Some? ==> (key, r.value) in table
    ensures r.None? <==> forall i | 0 <= i < |table| :: table[i].0 != key
    decreases |table|
  {
    if table == [] then None
    else if table[|table| - 1].0 == key then Some(table[|table| - 1].1)
    else Lookup(table[..|table| - 1], key)
  }

  /** Every value of the table is a key that the table maps to itself. */
  ghost predicate ValuesAreCanonical(table: seq<(string, string)>)
  {
    forall i | 0 <= i < |table| :: Lookup(table, table[i].1) == Some(table[i].1)
  }

  /** Normalising a normalised name changes nothing. */
  lemma NormalizeIdempotent(table: seq<(string, string)>, key: string)
    requires ValuesAreCanonical(table)
    ensures Lookup(table, key).Some? ==>
              Lookup(table, Lookup(table, key).value) == Lookup(table, key)
  {
    if Lookup(table, key).Some? {
      var v := Lookup(table, key).value;
      var i :| 0 <= i < |table| && table[i] == (key, v);
      assert Lookup(table, table[i].1) == Some(table[i].1);
    }
  }

  /** `unicodePropertyAliasList`, in source order. */
  const PropertyAliases: seq<(string, string)> := [
    ("General_Category", "General_Category"),
    ("gc", "General_Category"),
    ("Script", "Script"),
    ("sc", "Script"),
    ("Script_Extensions", "Script_Extensions"),
    ("scx", "Script_Extensions"),
    ("ASCII", "ASCII"),
    ("ASCII_Hex_Digit", "ASCII_Hex_Digit"),
    ("AHex", "ASCII_Hex_Digit"),
    ("Alphabetic", "Alphabetic"),
    ("Alpha", "Alphabetic"),
    ("Any", "Any"),
    ("Assigned", "Assigned"),
    ("Bidi_Control", "Bidi_Control"),
    ("Bidi_C", "Bidi_Control"),
    ("Bidi_Mirrored", "Bidi_Mirrored"),
    ("Bidi_M", "Bidi_Mirrored"),
    ("Case_Ignorable", "Case_Ignorable"),
    ("CI", "Case_Ignorable"),
    ("Cased", "Cased"),
    ("Changes_When_Casefolded", "Changes_When_Casefolded"),
    ("CWCF", "Changes_When_Casefolded"),
    ("Changes_When_Casemapped", "Changes_When_Casemapped"),
    ("CWCM", "Changes_When_Casemapped"),
    ("Changes_When_Lowercased", "Changes_When_Lowercased"),
    ("CWL", "Changes_When_Lowercased"),
    ("Changes_When_NFKC_Casefolded", "Changes_When_NFKC_Casefolded"),
    ("CWKCF", "Changes_When_NFKC_Casefolded"),
    ("Changes_When_Titlecased", "Changes_When_Titlecased"),
    ("CWT", "Changes_When_Titlecased"),
    ("Changes_When_Uppercased", "Changes_When_Uppercased"),
    ("CWU", "Changes_When_Uppercased"),
    ("Dash", "Dash"),
    ("Default_Ignorable_Code_Point", "Default_Ignorable_Code_Point"),
    ("DI", "Default_Ignorable_Code_Point"),
    ("Deprecated", "Deprecated"),
    ("Dep", "Deprecated"),
    ("Diacritic", "Diacritic"),
    ("Dia", "Diacritic"),
    ("Emoji", "Emoji"),
    ("Emoji_Component", "Emoji_Component"),
    ("EComp", "Emoji_Component"),
    ("Emoji_Modifier", "Emoji_Modifier"),
    ("EMod", "Emoji_Modifier"),
    ("Emoji_Modifier_Base", "Emoji_Modifier_Base"),
    ("EBase", "Emoji_Modifier_Base"),
    ("Emoji_Presentation", "Emoji_Presentation"),
    ("EPres", "Emoji_Presentation"),
    ("Extended_Pictographic", "Extended_Pictographic"),
    ("ExtPict", "Extended_Pictographic"),
    ("Extender", "Extender"),
    ("Ext", "Extender"),
    ("Grapheme_Base", "Grapheme_Base"),
    ("Gr_Base", "Grapheme_Base"),
    ("Grapheme_Extend", "Grapheme_Extend"),
    ("Gr_Ext", "Grapheme_Extend"),
    ("Hex_Digit", "Hex_Digit"),
    ("Hex", "Hex_Digit"),
    ("IDS_Binary_Operator", "IDS_Binary_Operator"),
    ("IDSB", "IDS_Binary_Operator"),
    ("IDS_Trinary_Operator", "IDS_Trinary_Operator"),
    ("IDST", "IDS_Trinary_Operator"),
    ("ID_Continue", "ID_Continue"),
    ("IDC", "ID_Continue"),
    ("ID_Start", "ID_Start"),
    ("IDS", "ID_Start"),
    ("Ideographic", "Ideographic"),
    ("Ideo", "Ideographic"),
    ("Join_Control", "Join_Control"),
    ("Join_C", "Join_Control"),
    ("Logical_Order_Exception", "Logical_Order_Exception"),
    ("LOE", "Logical_Order_Exception"),
    ("Lowercase", "Lowercase"),
    ("Lower", "Lowercase"),
    ("Math", "Math"),
    ("Noncharacter_Code_Point", "Noncharacter_Code_Point"),
    ("NChar", "Noncharacter_Code_Point"),
    ("Pattern_Syntax", "Pattern_Syntax"),
    ("Pat_Syn", "Pattern_Syntax"),
    ("Pattern_White_Space", "Pattern_White_Space"),
    ("Pat_WS", "Pattern_White_Space"),
    ("Quotation_Mark", "Quotation_Mark"),
    ("QMark", "Quotation_Mark"),
    ("Radical", "Radical"),
    ("Regional_Indicator", "Regional_Indicator"),
    ("RI", "Regional_Indicator"),
    ("Sentence_Terminal", "Sentence_Terminal"),
    ("STerm", "Sentence_Terminal"),
    ("Soft_Dotted", "Soft_Dotted"),
    ("SD", "Soft_Dotted"),
    ("Terminal_Punctuation", "Terminal_Punctuation"),
    ("Term", "Terminal_Punctuation"),
    ("Unified_Ideograph", "Unified_Ideograph"),
    ("UIdeo", "Unified_Ideograph"),
    ("Uppercase", "Uppercase"),
    ("Upper", "Uppercase"),
    ("Variation_Selector", "Variation_Selector"),
    ("VS", "Variation_Selector"),
    ("White_Space", "White_Space"),
    ("space", "White_Space"),
    ("XID_Continue", "XID_Continue"),
    ("XIDC", "XID_Continue"),
    ("XID_Start", "XID_Start"),
    ("XIDS", "XID_Start")
  ]

  /** `unicodeValueAliasesList`, in source order. */
  const ValueAliases: seq<(string, string)> := [
    ("Cased_Letter", "Cased_Letter"),
    ("LC", "Cased_Letter"),
    ("Close_Punctuation", "Close_Punctuation"),
    ("Pe", "Close_Punctuation"),
    ("Connector_Punctuation", "Connector_Punctuation"),
    ("Pc", "Connector_Punctuation"),
    ("Control", "Control"),
    ("Cc", "Control"),
    ("cntrl", "Control"),
    ("Currency_Symbol", "Currency_Symbol"),
    ("Sc", "Currency_Symbol"),
    ("Dash_Punctuation", "Dash_Punctuation"),
    ("Pd", "Dash_Punctuation"),
    ("Decimal_Number", "Decimal_Number"),
    ("Nd", "Decimal_Number"),
    ("digit", "Decimal_Number"),
    ("Enclosing_Mark", "Enclosing_Mark"),
    ("Me", "Enclosing_Mark"),
    ("Final_Punctuation", "Final_Punctuation"),
    ("Pf", "Final_Punctuation"),
    ("Format", "Format"),
    ("Cf", "Format"),
    ("Initial_Punctuation", "Initial_Punctuation"),
    ("Pi", "Initial_Punctuation"),
    ("Letter", "Letter"),
    ("L", "Letter"),
    ("Letter_Number", "Letter_Number"),
    ("Nl", "Letter_Number"),
    ("Line_Separator", "Line_Separator"),
    ("Zl", "Line_Separator"),
    ("Lowercase_Letter", "Lowercase_Letter"),
    ("Ll", "Lowercase_Letter"),
    ("Mark", "Mark"),
    ("M", "Mark"),
    ("Combining_Mark", "Mark"),
    ("Math_Symbol", "Math_Symbol"),
    ("Sm", "Math_Symbol"),
    ("Modifier_Letter", "Modifier_Letter"),
    ("Lm", "Modifier_Letter"),
    ("Modifier_Symbol", "Modifier_Symbol"),
    ("Sk", "Modifier_Symbol"),
    ("Nonspacing_Mark", "Nonspacing_Mark"),
    ("Mn", "Nonspacing_Mark"),
    ("Number", "Number"),
    ("N", "Number"),
    ("Open_Punctuation", "Open_Punctuation"),
    ("Ps", "Open_Punctuation"),
    ("Other", "Other"),
    ("C", "Other"),
    ("Other_Letter", "Other_Letter"),
    ("Lo", "Other_Letter"),
    ("Other_Number", "Other_Number"),
    ("No", "Other_Number"),
    ("Other_Punctuation", "Other_Punctuation"),
    ("Po", "Other_Punctuation"),
    ("Other_Symbol", "Other_Symbol"),
    ("So", "Other_Symbol"),
    ("Paragraph_Separator", "Paragraph_Separator"),
    ("Zp", "Paragraph_Separator"),
    ("Private_Use", "Private_Use"),
    ("Co", "Private_Use"),
    ("Punctuation", "Punctuation"),
    ("P", "Punctuation"),
    ("punct", "Punctuation"),
    ("Separator", "Separator"),
    ("Z", "Separator"),
    ("Space_Separator", "Space_Separator"),
    ("Zs", "Space_Separator"),
    ("Spacing_Mark", "Spacing_Mark"),
    ("Mc", "Spacing_Mark"),
    ("Surrogate", "Surrogate"),
    ("Cs", "Surrogate"),
    ("Symbol", "Symbol"),
    ("S", "Symbol"),
    ("Titlecase_Letter", "Titlecase_Letter"),
    ("Lt", "Titlecase_Letter"),
    ("Unassigned", "Unassigned"),
    ("Cn", "Unassigned"),
    ("Uppercase_Letter", "Uppercase_Letter"),
    ("Lu", "Uppercase_Letter"),
    ("Adlam", "Adlam"),
    ("Adlm", "Adlam"),
    ("Ahom", "Ahom"),
    ("Anatolian_Hieroglyphs", "Anatolian_Hieroglyphs"),
    ("Hluw", "Anatolian_Hieroglyphs"),
    ("Arabic", "Arabic"),
    ("Arab", "Arabic"),
    ("Armenian", "Armenian"),
    ("Armn", "Armenian"),
    ("Avestan", "Avestan"),
    ("Avst", "Avestan"),
    ("Balinese", "Balinese"),
    ("Bali", "Balinese"),
    ("Bamum", "Bamum"),
    ("Bamu", "Bamum"),
    ("Bassa_Vah", "Bassa_Vah"),
    ("Bass", "Bassa_Vah"),
    ("Batak", "Batak"),
    ("Batk", "Batak"),
    ("Bengali", "Bengali"),
    ("Beng", "Bengali"),
    ("Bhaiksuki", "Bhaiksuki"),
    ("Bhks", "Bhaiksuki"),
    ("Bopomofo", "Bopomofo"),
    ("Bopo", "Bopomofo"),
    ("Brahmi", "Brahmi"),
    ("Brah", "Brahmi"),
    ("Braille", "Braille"),
    ("Brai", "Braille"),
    ("Buginese", "Buginese"),
    ("Bugi", "Buginese"),
    ("Buhid", "Buhid"),
    ("Buhd", "Buhid"),
    ("Canadian_Aboriginal", "Canadian_Aboriginal"),
    ("Cans", "Canadian_Aboriginal"),
    ("Carian", "Carian"),
    ("Cari", "Carian"),
    ("Caucasian_Albanian", "Caucasian_Albanian"),
    ("Aghb", "Caucasian_Albanian"),
    ("Chakma", "Chakma"),
    ("Cakm", "Chakma"),
    ("Cham", "Cham"),
    ("Chorasmian", "Chorasmian"),
    ("Chrs", "Chorasmian"),
    ("Cherokee", "Cherokee"),
    ("Cher", "Cherokee"),
    ("Common", "Common"),
    ("Zyyy", "Common"),
    ("Coptic", "Coptic"),
    ("Copt", "Coptic"),
    ("Qaac", "Coptic"),
    ("Cuneiform", "Cuneiform"),
    ("Xsux", "Cuneiform"),
    ("Cypriot", "Cypriot"),
    ("Cprt", "Cypriot"),
    ("Cypro_Minoan", "Cypro_Minoan"),
    ("Cpmn", "Cypro_Minoan"),
    ("Cyrillic", "Cyrillic"),
    ("Cyrl", "Cyrillic"),
    ("Deseret", "Deseret"),
    ("Dsrt", "Deseret"),
    ("Devanagari", "Devanagari"),
    ("Deva", "Devanagari"),
    ("Dives_Akuru", "Dives_Akuru"),
    ("Diak", "Dives_Akuru"),
    ("Dogra", "Dogra"),
    ("Dogr", "Dogra"),
    ("Duployan", "Duployan"),
    ("Dupl", "Duployan"),
    ("Egyptian_Hieroglyphs", "Egyptian_Hieroglyphs"),
    ("Egyp", "Egyptian_Hieroglyphs"),
    ("Elbasan", "Elbasan"),
    ("Elba", "Elbasan"),
    ("Elymaic", "Elymaic"),
    ("Elym", "Elymaic"),
    ("Ethiopic", "Ethiopic"),
    ("Ethi", "Ethiopic"),
    ("Georgian", "Georgian"),
    ("Geor", "Georgian"),
    ("Glagolitic", "Glagolitic"),
    ("Glag", "Glagolitic"),
    ("Gothic", "Gothic"),
    ("Goth", "Gothic"),
    ("Grantha", "Grantha"),
    ("Gran", "Grantha"),
    ("Greek", "Greek"),
    ("Grek", "Greek"),
    ("Gujarati", "Gujarati"),
    ("Gujr", "Gujarati"),
    ("Gunjala_Gondi", "Gunjala_Gondi"),
    ("Gong", "Gunjala_Gondi"),
    ("Gurmukhi", "Gurmukhi"),
    ("Guru", "Gurmukhi"),
    ("Han", "Han"),
    ("Hani", "Han"),
    ("Hangul", "Hangul"),
    ("Hang", "Hangul"),
    ("Hanifi_Rohingya", "Hanifi_Rohingya"),
    ("Rohg", "Hanifi_Rohingya"),
    ("Hanunoo", "Hanunoo"),
    ("Hano", "Hanunoo"),
    ("Hatran", "Hatran"),
    ("Hatr", "Hatran"),
    ("Hebrew", "Hebrew"),
    ("Hebr", "Hebrew"),
    ("Hiragana", "Hiragana"),
    ("Hira", "Hiragana"),
    ("Imperial_Aramaic", "Imperial_Aramaic"),
    ("Armi", "Imperial_Aramaic"),
    ("Inherited", "Inherited"),
    ("Zinh", "Inherited"),
    ("Qaai", "Inherited"),
    ("Inscriptional_Pahlavi", "Inscriptional_Pahlavi"),
    ("Phli", "Inscriptional_Pahlavi"),
    ("Inscriptional_Parthian", "Inscriptional_Parthian"),
    ("Prti", "Inscriptional_Parthian"),
    ("Javanese", "Javanese"),
    ("Java", "Javanese"),
    ("Kaithi", "Kaithi"),
    ("Kthi", "Kaithi"),
    ("Kannada", "Kannada"),
    ("Knda", "Kannada"),
    ("Katakana", "Katakana"),
    ("Kana", "Katakana"),
    ("Kayah_Li", "Kayah_Li"),
    ("Kali", "Kayah_Li"),
    ("Kharoshthi", "Kharoshthi"),
    ("Khar", "Kharoshthi"),
    ("Khitan_Small_Script", "Khitan_Small_Script"),
    ("Kits", "Khitan_Small_Script"),
    ("Khmer", "Khmer"),
    ("Khmr", "Khmer"),
    ("Khojki", "Khojki"),
    ("Khoj", "Khojki"),
    ("Khudawadi", "Khudawadi"),
    ("Sind", "Khudawadi"),
    ("Lao", "Lao"),
    ("Laoo", "Lao"),
    ("Latin", "Latin"),
    ("Latn", "Latin"),
    ("Lepcha", "Lepcha"),
    ("Lepc", "Lepcha"),
    ("Limbu", "Limbu"),
    ("Limb", "Limbu"),
    ("Linear_A", "Linear_A"),
    ("Lina", "Linear_A"),
    ("Linear_B", "Linear_B"),
    ("Linb", "Linear_B"),
    ("Lisu", "Lisu"),
    ("Lycian", "Lycian"),
    ("Lyci", "Lycian"),
    ("Lydian", "Lydian"),
    ("Lydi", "Lydian"),
    ("Mahajani", "Mahajani"),
    ("Mahj", "Mahajani"),
    ("Makasar", "Makasar"),
    ("Maka", "Makasar"),
    ("Malayalam", "Malayalam"),
    ("Mlym", "Malayalam"),
    ("Mandaic", "Mandaic"),
    ("Mand", "Mandaic"),
    ("Manichaean", "Manichaean"),
    ("Mani", "Manichaean"),
    ("Marchen", "Marchen"),
    ("Marc", "Marchen"),
    ("Medefaidrin", "Medefaidrin"),
    ("Medf", "Medefaidrin"),
    ("Masaram_Gondi", "Masaram_Gondi"),
    ("Gonm", "Masaram_Gondi"),
    ("Meetei_Mayek", "Meetei_Mayek"),
    ("Mtei", "Meetei_Mayek"),
    ("Mende_Kikakui", "Mende_Kikakui"),
    ("Mend", "Mende_Kikakui"),
    ("Meroitic_Cursive", "Meroitic_Cursive"),
    ("Merc", "Meroitic_Cursive"),
    ("Meroitic_Hieroglyphs", "Meroitic_Hieroglyphs"),
    ("Mero", "Meroitic_Hieroglyphs"),
    ("Miao", "Miao"),
    ("Plrd", "Miao"),
    ("Modi", "Modi"),
    ("Mongolian", "Mongolian"),
    ("Mong", "Mongolian"),
    ("Mro", "Mro"),
    ("Mroo", "Mro"),
    ("Multani", "Multani"),
    ("Mult", "Multani"),
    ("Myanmar", "Myanmar"),
    ("Mymr", "Myanmar"),
    ("Nabataean", "Nabataean"),
    ("Nbat", "Nabataean"),
    ("Nandinagari", "Nandinagari"),
    ("Nand", "Nandinagari"),
    ("New_Tai_Lue", "New_Tai_Lue"),
    ("Talu", "New_Tai_Lue"),
    ("Newa", "Newa"),
    ("Nko", "Nko"),
    ("Nkoo", "Nko"),
    ("Nushu", "Nushu"),
    ("Nshu", "Nushu"),
    ("Nyiakeng_Puachue_Hmong", "Nyiakeng_Puachue_Hmong"),
    ("Hmnp", "Nyiakeng_Puachue_Hmong"),
    ("Ogham", "Ogham"),
    ("Ogam", "Ogham"),
    ("Ol_Chiki", "Ol_Chiki"),
    ("Olck", "Ol_Chiki"),
    ("Old_Hungarian", "Old_Hungarian"),
    ("Hung", "Old_Hungarian"),
    ("Old_Italic", "Old_Italic"),
    ("Ital", "Old_Italic"),
    ("Old_North_Arabian", "Old_North_Arabian"),
    ("Narb", "Old_North_Arabian"),
    ("Old_Permic", "Old_Permic"),
    ("Perm", "Old_Permic"),
    ("Old_Persian", "Old_Persian"),
    ("Xpeo", "Old_Persian"),
    ("Old_Sogdian", "Old_Sogdian"),
    ("Sogo", "Old_Sogdian"),
    ("Old_South_Arabian", "Old_South_Arabian"),
    ("Sarb", "Old_South_Arabian"),
    ("Old_Turkic", "Old_Turkic"),
    ("Orkh", "Old_Turkic"),
    ("Old_Uyghur", "Old_Uyghur"),
    ("Ougr", "Old_Uyghur"),
    ("Oriya", "Oriya"),
    ("Orya", "Oriya"),
    ("Osage", "Osage"),
    ("Osge", "Osage"),
    ("Osmanya", "Osmanya"),
    ("Osma", "Osmanya"),
    ("Pahawh_Hmong", "Pahawh_Hmong"),
    ("Hmng", "Pahawh_Hmong"),
    ("Palmyrene", "Palmyrene"),
    ("Palm", "Palmyrene"),
    ("Pau_Cin_Hau", "Pau_Cin_Hau"),
    ("Pauc", "Pau_Cin_Hau"),
    ("Phags_Pa", "Phags_Pa"),
    ("Phag", "Phags_Pa"),
    ("Phoenician", "Phoenician"),
    ("Phnx", "Phoenician"),
    ("Psalter_Pahlavi", "Psalter_Pahlavi"),
    ("Phlp", "Psalter_Pahlavi"),
    ("Rejang", "Rejang"),
    ("Rjng", "Rejang"),
    ("Runic", "Runic"),
    ("Runr", "Runic"),
    ("Samaritan", "Samaritan"),
    ("Samr", "Samaritan"),
    ("Saurashtra", "Saurashtra"),
    ("Saur", "Saurashtra"),
    ("Sharada", "Sharada"),
    ("Shrd", "Sharada"),
    ("Shavian", "Shavian"),
    ("Shaw", "Shavian"),
    ("Siddham", "Siddham"),
    ("Sidd", "Siddham"),
    ("SignWriting", "SignWriting"),
    ("Sgnw", "SignWriting"),
    ("Sinhala", "Sinhala"),
    ("Sinh", "Sinhala"),
    ("Sogdian", "Sogdian"),
    ("Sogd", "Sogdian"),
    ("Sora_Sompeng", "Sora_Sompeng"),
    ("Sora", "Sora_Sompeng"),
    ("Soyombo", "Soyombo"),
    ("Soyo", "Soyombo"),
    ("Sundanese", "Sundanese"),
    ("Sund", "Sundanese"),
    ("Syloti_Nagri", "Syloti_Nagri"),
    ("Sylo", "Syloti_Nagri"),
    ("Syriac", "Syriac"),
    ("Syrc", "Syriac"),
    ("Tagalog", "Tagalog"),
    ("Tglg", "Tagalog"),
    ("Tagbanwa", "Tagbanwa"),
    ("Tagb", "Tagbanwa"),
    ("Tai_Le", "Tai_Le"),
    ("Tale", "Tai_Le"),
    ("Tai_Tham", "Tai_Tham"),
    ("Lana", "Tai_Tham"),
    ("Tai_Viet", "Tai_Viet"),
    ("Tavt", "Tai_Viet"),
    ("Takri", "Takri"),
    ("Takr", "Takri"),
    ("Tamil", "Tamil"),
    ("Taml", "Tamil"),
    ("Tangsa", "Tangsa"),
    ("Tnsa", "Tangsa"),
    ("Tangut", "Tangut"),
    ("Tang", "Tangut"),
    ("Telugu", "Telugu"),
    ("Telu", "Telugu"),
    ("Thaana", "Thaana"),
    ("Thaa", "Thaana"),
    ("Thai", "Thai"),
    ("Tibetan", "Tibetan"),
    ("Tibt", "Tibetan"),
    ("Tifinagh", "Tifinagh"),
    ("Tfng", "Tifinagh"),
    ("Tirhuta", "Tirhuta"),
    ("Tirh", "Tirhuta"),
    ("Toto", "Toto"),
    ("Ugaritic", "Ugaritic"),
    ("Ugar", "Ugaritic"),
    ("Vai", "Vai"),
    ("Vaii", "Vai"),
    ("Vithkuqi", "Vithkuqi"),
    ("Vith", "Vithkuqi"),
    ("Wancho", "Wancho"),
    ("Wcho", "Wancho"),
    ("Warang_Citi", "Warang_Citi"),
    ("Wara", "Warang_Citi"),
    ("Yezidi", "Yezidi"),
    ("Yezi", "Yezidi"),
    ("Yi", "Yi"),
    ("Yiii", "Yi"),
    ("Zanabazar_Square", "Zanabazar_Square"),
    ("Zanb", "Zanabazar_Square")
  ]
}
