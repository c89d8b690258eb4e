/** The text tables both catalog generators carry (feature sets, description templates) and
    the three generators the model distinguishes: the simple one, the enhanced one as written
    (with a mis-decoded bullet) and the enhanced one with the bullet it evidently intends. */
module Generators {
  import opened Wrappers
  import opened Text
  import opened OrderedTable
  import opened CatalogTables
  import opened Classifier

  const ComputingFeatures: seq<string> := [
    "High-performance processor", "Ample RAM and storage", "Modern connectivity options",
    "Energy efficient design", "Comprehensive warranty"]
  const MobileFeatures: seq<string> := [
    "Advanced camera system", "Long-lasting battery", "Fast charging capability",
    "Durable construction", "Latest operating system"]
  const GamingFeatures: seq<string> := [
    "Responsive controls", "Premium build quality", "Ergonomic design",
    "Universal compatibility", "Enhanced gaming experience"]
  const AudioVideoFeatures: seq<string> := [
    "Superior sound quality", "Comfortable design", "Wireless connectivity",
    "Long battery life", "Noise cancellation"]
  const NetworkingFeatures: seq<string> := [
    "High-speed connectivity", "Easy setup and configuration", "Reliable performance",
    "Security features", "Multiple device support"]
  const StorageFeatures: seq<string> := [
    "Fast data transfer speeds", "Reliable data protection", "Compact design",
    "Universal compatibility", "Plug and play operation"]
  const DefaultFeatures: seq<string> := [
    "Premium build quality", "Reliable performance", "Modern design",
    "User-friendly operation", "Comprehensive warranty"]

  /** `feature_sets` of `generate_key_features`, in source order. */
  const FeatureSets: seq<(string, seq<string>)> := [
    ("Computing", ComputingFeatures), ("Mobile", MobileFeatures), ("Gaming", GamingFeatures),
    ("Audio/Video", AudioVideoFeatures), ("Networking", NetworkingFeatures),
    ("Storage", StorageFeatures), ("default", DefaultFeatures)]

  /** `templates` of `generate_detailed_description`: the text before and after the name. */
  const Templates: seq<(string, (string, string))> := [
    ("Computing", ("The ", " delivers exceptional computing performance with modern features and reliable build quality. Perfect for both professional work and everyday computing tasks.")),
    ("Mobile", ("Experience cutting-edge mobile technology with the ", ". Featuring advanced capabilities and sleek design for the modern user.")),
    ("Gaming", ("Elevate your gaming experience with the ", ". Designed for serious gamers who demand precision, performance, and reliability.")),
    ("Audio/Video", ("Immerse yourself in superior sound quality with the ", ". Engineered to deliver crystal-clear audio and exceptional performance.")),
    ("Networking", ("Stay connected with the ", ". Featuring fast, reliable networking capabilities for seamless internet connectivity.")),
    ("Storage", ("Secure and expand your digital storage with the ", ". Offering reliable data storage with fast access speeds.")),
    ("Displays", ("Enhance your visual experience with the ", ". Featuring crisp, clear display technology for work and entertainment.")),
    ("Office", ("Boost your productivity with the ", ". Professional-grade equipment designed for efficient office operations.")),
    ("Photography", ("Capture life's moments with the ", ". Professional photography equipment for stunning results.")),
    ("Wearables", ("Stay connected and track your lifestyle with the ", ". Modern wearable technology for the active user."))
  ]

  /** The bullet of `simple_catalog.py`: U+2022 and a space. */
  const Bullet: string := "\U{2022} "

  /** The bullet of `enhanced_product_catalog.py` as it stands in the file: U+00E2 U+20AC
      U+00A2 and a space. */
  const MisdecodedBullet: string := "\U{00E2}\U{20AC}\U{00A2} "

  function SimpleGenerator(): Generator {
    Generator(SimpleLiteral, BrandPatterns, Templates, FeatureSets, Bullet)
  }

  function EnhancedGeneratorAsWritten(): Generator {
    Generator(EnhancedLiteral, BrandPatterns, Templates, FeatureSets, MisdecodedBullet)
  }

  /** The enhanced generator with the bullet the simple one writes. */
  function EnhancedGenerator(): Generator {
    Generator(EnhancedLiteral, BrandPatterns, Templates, FeatureSets, Bullet)
  }

  // ---------------------------------------------------------------- the feature sets' shape

  predicate FiveOneLiners(lines: seq<string>) {
    |lines| == 5 && forall k :: 0 <= k < 5 ==> '\n' !in lines[k]
  }

  lemma ComputingShape()
    ensures FiveOneLiners(ComputingFeatures)
  {
    var f := ComputingFeatures;
    assert '\n' !in f[0];
    assert '\n' !in f[1];
    assert '\n' !in f[2];
    assert '\n' !in f[3];
    assert '\n' !in f[4];
  }

  lemma MobileShape()
    ensures FiveOneLiners(MobileFeatures)
  {
    var f := MobileFeatures;
    assert '\n' !in f[0];
    assert '\n' !in f[1];
    assert '\n' !in f[2];
    assert '\n' !in f[3];
    assert '\n' !in f[4];
  }

  lemma GamingShape()
    ensures FiveOneLiners(GamingFeatures)
  {
    var f := GamingFeatures;
    assert '\n' !in f[0];
    assert '\n' !in f[1];
    assert '\n' !in f[2];
    assert '\n' !in f[3];
    assert '\n' !in f[4];
  }

  lemma AudioVideoShape()
    ensures FiveOneLiners(AudioVideoFeatures)
  {
    var f := AudioVideoFeatures;
    assert '\n' !in f[0];
    assert '\n' !in f[1];
    assert '\n' !in f[2];
    assert '\n' !in f[3];
    assert '\n' !in f[4];
  }

  lemma NetworkingShape()
    ensures FiveOneLiners(NetworkingFeatures)
  {
    var f := NetworkingFeatures;
    assert '\n' !in f[0];
    assert '\n' !in f[1];
    assert '\n' !in f[2];
    assert '\n' !in f[3];
    assert '\n' !in f[4];
  }

  lemma StorageShape()
    ensures FiveOneLiners(StorageFeatures)
  {
    var f := StorageFeatures;
    assert '\n' !in f[0];
    assert '\n' !in f[1];
    assert '\n' !in f[2];
    assert '\n' !in f[3];
    assert '\n' !in f[4];
  }

  lemma DefaultShape()
    ensures FiveOneLiners(DefaultFeatures)
  {
    var f := DefaultFeatures;
    assert '\n' !in f[0];
    assert '\n' !in f[1];
    assert '\n' !in f[2];
    assert '\n' !in f[3];
    assert '\n' !in f[4];
  }

  /** Every feature set has five one-line features, and there is a 'default' set. Each set is
      checked by a lemma of its own: the five literal strings of one set are a query of their
      own for the solver. */
  lemma FeatureSetsShape()
    ensures WellShaped(FeatureSets)
  {
    ComputingShape();
    MobileShape();
    GamingShape();
    AudioVideoShape();
    NetworkingShape();
    StorageShape();
    DefaultShape();
    assert FeatureSets[6].0 == "default";
    forall i | 0 <= i < |FeatureSets| ensures FiveOneLiners(FeatureSets[i].1) {
      if i == 0 {} else if i == 1 {} else if i == 2 {} else if i == 3 {} else if i == 4 {}
      else if i == 5 {} else {}
    }
  }

  /** The simple generator's features, for any category, split into five entries that each
      begin with "• ". */
  lemma SimpleFeaturesBulleted(category: string)
    ensures var lines := SplitOn(KeyFeatures(FeatureSets, Bullet, category), "\n");
            && |lines| == 5
            && forall k :: 0 <= k < 5 ==> |lines[k]| >= 2 && lines[k][..2] == "\U{2022} "
  {
    FeatureSetsShape();
    KeyFeaturesLines(FeatureSets, Bullet, category);
  }

  /** The three generators meet what `CatalogRows` asks of a generator, so every run gives five
      feature entries per product. */
  lemma GeneratorsWellShaped()
    ensures WellShaped(SimpleGenerator().features) && '\n' !in SimpleGenerator().bullet
    ensures WellShaped(EnhancedGenerator().features) && '\n' !in EnhancedGenerator().bullet
    ensures WellShaped(EnhancedGeneratorAsWritten().features)
    ensures '\n' !in EnhancedGeneratorAsWritten().bullet
  {
    FeatureSetsShape();
    BulletsOneLine();
  }

  lemma BulletsOneLine()
    ensures '\n' !in Bullet && '\n' !in MisdecodedBullet
  {
  }

  // ---------------------------------------------------------------- the mis-decoded bullet

  /** Windows-1252 for the bytes 0x80 to 0x9F, where it differs from Latin-1; `None` marks the
      five bytes it leaves undefined. */
  const Cp1252High: seq<Option<char>> := [
    Some('\U{20AC}'), None, Some('\U{201A}'), Some('\U{0192}'), Some('\U{201E}'), Some('\U{2026}'),
    Some('\U{2020}'), Some('\U{2021}'), Some('\U{02C6}'), Some('\U{2030}'), Some('\U{0160}'),
    Some('\U{2039}'), Some('\U{0152}'), None, Some('\U{017D}'), None,
    None, Some('\U{2018}'), Some('\U{2019}'), Some('\U{201C}'), Some('\U{201D}'), Some('\U{2022}'),
    Some('\U{2013}'), Some('\U{2014}'), Some('\U{02DC}'), Some('\U{2122}'), Some('\U{0161}'),
    Some('\U{203A}'), Some('\U{0153}'), None, Some('\U{017E}'), Some('\U{0178}')
  ]

  /** The character Windows-1252 gives a byte. */
  function Cp1252Char(b: nat): Option<char>
    requires b < 256
  {
    if 0x80 <= b < 0xA0 then Cp1252High[b - 0x80] else Some(b as char)
  }

  /** The three UTF-8 bytes of a code point in U+0800..U+FFFF. */
  function Utf8ThreeBytes(cp: nat): seq<nat>
    requires 0x800 <= cp < 0x10000
  {
    [0xE0 + cp / 0x1000, 0x80 + (cp / 0x40) % 0x40, 0x80 + cp % 0x40]
  }

  /** The enhanced generator's bullet is U+2022 written as UTF-8 and read back as
      Windows-1252, and it is not the bullet the simple generator writes. */
  lemma EnhancedBulletIsMisdecoded()
    ensures Utf8ThreeBytes(0x2022) == [0xE2, 0x80, 0xA2]
    ensures Cp1252Char(0xE2) == Some(MisdecodedBullet[0])
    ensures Cp1252Char(0x80) == Some(MisdecodedBullet[1])
    ensures Cp1252Char(0xA2) == Some(MisdecodedBullet[2])
    ensures MisdecodedBullet[3..] == Bullet[1..]
    ensures MisdecodedBullet != Bullet && '\U{2022}' !in MisdecodedBullet
  {
  }

  /** As written, each of the five feature entries of the enhanced generator begins with the
      three mis-decoded characters, not with the bullet. */
  lemma EnhancedFeaturesAsWritten(category: string)
    ensures var lines := SplitOn(KeyFeatures(FeatureSets, MisdecodedBullet, category), "\n");
            && |lines| == 5
            && forall k :: 0 <= k < 5 ==>
                 |lines[k]| >= 4 && lines[k][..4] == MisdecodedBullet && lines[k][0] != '\U{2022}'
  {
    FeatureSetsShape();
    KeyFeaturesLines(FeatureSets, MisdecodedBullet, category);
  }
}
