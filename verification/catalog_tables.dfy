/** The keyword tables of the two catalog generators, entry for entry and in source order.
    Both are dict literals `keyword: (category, subcategory, min_price, max_price)`; the
    enhanced generator's literal repeats the key 'usb' and adds 'vga', the simple one does not. */
module CatalogTables {
  /** What a keyword maps to: category, subcategory and the price band in cedis. */
  datatype Band = Band(category: string, subcategory: string, minPrice: int, maxPrice: int)

  /** Computing & Laptops. */
  const ComputingKeywords: seq<(string, Band)> := [
    ("laptop", Band("Computing", "Laptops", 15000, 30000)),
    ("dell", Band("Computing", "Laptops", 12000, 25000)),
    ("hp", Band("Computing", "Laptops", 10000, 20000)),
    ("acer", Band("Computing", "Laptops", 8000, 18000)),
    ("aspire", Band("Computing", "Laptops", 8000, 15000)),
    ("inspiron", Band("Computing", "Laptops", 12000, 22000)),
    ("desktop", Band("Computing", "Desktops", 8000, 15000)),
    ("microtower", Band("Computing", "Desktops", 10000, 18000)),
    ("imac", Band("Computing", "All-in-One", 25000, 50000)),
    ("aio", Band("Computing", "All-in-One", 15000, 30000))
  ]

  /** Mobile Devices. */
  const MobileKeywords: seq<(string, Band)> := [
    ("airpods", Band("Mobile", "Audio Accessories", 800, 1500)),
    ("iphone", Band("Mobile", "Smartphones", 5000, 15000)),
    ("samsung", Band("Mobile", "Smartphones", 3000, 12000)),
    ("nokia", Band("Mobile", "Smartphones", 500, 3000)),
    ("redmi", Band("Mobile", "Smartphones", 1500, 4000)),
    ("galaxy", Band("Mobile", "Smartphones", 3000, 12000))
  ]

  /** Gaming. */
  const GamingKeywords: seq<(string, Band)> := [
    ("ps5", Band("Gaming", "Consoles", 8000, 12000)),
    ("ps4", Band("Gaming", "Controllers", 600, 1000)),
    ("nintendo", Band("Gaming", "Consoles", 4000, 8000)),
    ("gaming", Band("Gaming", "Accessories", 200, 1000)),
    ("controller", Band("Gaming", "Controllers", 400, 800)),
    ("dualsense", Band("Gaming", "Controllers", 600, 1000)),
    ("dualshock", Band("Gaming", "Controllers", 400, 700))
  ]

  /** Audio & Video. */
  const AudioVideoKeywords: seq<(string, Band)> := [
    ("jbl", Band("Audio/Video", "Speakers", 800, 2000)),
    ("harman", Band("Audio/Video", "Speakers", 800, 2000)),
    ("headset", Band("Audio/Video", "Headphones", 300, 1200)),
    ("headphone", Band("Audio/Video", "Headphones", 200, 1000)),
    ("microphone", Band("Audio/Video", "Microphones", 150, 600)),
    ("speaker", Band("Audio/Video", "Speakers", 400, 1500)),
    ("earbuds", Band("Audio/Video", "Earphones", 200, 800)),
    ("flip", Band("Audio/Video", "Portable Speakers", 800, 1500)),
    ("stereo", Band("Audio/Video", "Headphones", 200, 800)),
    ("wireless", Band("Audio/Video", "Wireless Audio", 300, 1000))
  ]

  /** Networking. */
  const NetworkingKeywords: seq<(string, Band)> := [
    ("router", Band("Networking", "Routers", 800, 2000)),
    ("wifi", Band("Networking", "WiFi Devices", 500, 1500)),
    ("4g", Band("Networking", "Mobile Internet", 600, 1200)),
    ("lte", Band("Networking", "Mobile Internet", 600, 1200)),
    ("tp-link", Band("Networking", "Routers", 500, 1500)),
    ("d-link", Band("Networking", "Routers", 400, 1200)),
    ("dlink", Band("Networking", "Routers", 400, 1200))
  ]

  /** Storage. */
  const StorageKeywords: seq<(string, Band)> := [
    ("ssd", Band("Storage", "Solid State Drives", 400, 1500)),
    ("hdd", Band("Storage", "Hard Drives", 300, 1000)),
    ("hard drive", Band("Storage", "Hard Drives", 300, 1000)),
    ("flash", Band("Storage", "USB Drives", 50, 300)),
    ("usb", Band("Storage", "USB Drives", 30, 200)),
    ("sandisk", Band("Storage", "Memory Cards", 100, 500)),
    ("seagate", Band("Storage", "Hard Drives", 400, 1200)),
    ("toshiba", Band("Storage", "Hard Drives", 350, 1000)),
    ("transcend", Band("Storage", "Hard Drives", 500, 1500)),
    ("lexar", Band("Storage", "SSD", 300, 1000))
  ]

  /** Displays & Monitors. */
  const DisplaysKeywords: seq<(string, Band)> := [
    ("display", Band("Displays", "Monitors", 1500, 4000)),
    ("monitor", Band("Displays", "Monitors", 1200, 3500)),
    ("tv", Band("Displays", "Televisions", 2000, 8000)),
    ("akai", Band("Displays", "Televisions", 1800, 4000)),
    ("bruhm", Band("Displays", "Televisions", 2000, 5000))
  ]

  /** Cables & Adapters, enhanced generator: a second 'usb' entry and 'vga'. */
  const EnhancedCables: seq<(string, Band)> := [
    ("cable", Band("Accessories", "Cables", 30, 200)),
    ("hdmi", Band("Accessories", "Cables", 50, 300)),
    ("usb", Band("Accessories", "Cables", 20, 150)),
    ("vga", Band("Accessories", "Cables", 40, 200)),
    ("adapter", Band("Accessories", "Adapters", 50, 300)),
    ("converter", Band("Accessories", "Converters", 80, 400)),
    ("hub", Band("Accessories", "USB Hubs", 150, 600))
  ]

  /** Printers & Office. */
  const OfficeKeywords: seq<(string, Band)> := [
    ("printer", Band("Office", "Printers", 1200, 4000)),
    ("canon", Band("Office", "Printers", 1000, 3000)),
    ("laser", Band("Office", "Printers", 1500, 5000)),
    ("toner", Band("Office", "Printer Supplies", 200, 600)),
    ("receipt", Band("Office", "POS Equipment", 800, 2000)),
    ("pos", Band("Office", "POS Equipment", 1500, 5000)),
    ("cash drawer", Band("Office", "POS Equipment", 1000, 2500)),
    ("scanner", Band("Office", "Scanners", 500, 1500))
  ]

  /** Photography & Video. */
  const PhotographyKeywords: seq<(string, Band)> := [
    ("camera", Band("Photography", "Cameras", 1000, 5000)),
    ("webcam", Band("Photography", "Web Cameras", 300, 800)),
    ("tripod", Band("Photography", "Tripods", 200, 800)),
    ("dji", Band("Photography", "Gimbals", 2000, 5000)),
    ("osmo", Band("Photography", "Gimbals", 2000, 5000)),
    ("fujifilm", Band("Photography", "Instant Cameras", 1200, 2500)),
    ("instax", Band("Photography", "Instant Cameras", 1200, 2500)),
    ("projector", Band("Photography", "Projectors", 1500, 4000)),
    ("light", Band("Photography", "Lighting", 200, 800)),
    ("ring light", Band("Photography", "Lighting", 300, 1000))
  ]

  /** Wearables. */
  const WearablesKeywords: seq<(string, Band)> := [
    ("watch", Band("Wearables", "Smart Watches", 300, 1500)),
    ("smart watch", Band("Wearables", "Smart Watches", 400, 1500))
  ]

  /** Power & Charging. */
  const PowerKeywords: seq<(string, Band)> := [
    ("power bank", Band("Power", "Power Banks", 200, 800)),
    ("charging", Band("Power", "Chargers", 100, 400)),
    ("socket", Band("Power", "Power Strips", 150, 500))
  ]

  /** Streaming & Media. */
  const MediaKeywords: seq<(string, Band)> := [
    ("mi tv stick", Band("Media", "Streaming Devices", 400, 800)),
    ("tv stick", Band("Media", "Streaming Devices", 300, 700))
  ]

  /** Security. */
  const SecurityKeywords: seq<(string, Band)> := [
    ("cctv", Band("Security", "Cameras", 500, 1500)),
    ("counterfeit", Band("Security", "Detection Equipment", 1500, 3000)),
    ("money detector", Band("Security", "Detection Equipment", 1500, 3000))
  ]

  /** Input Devices. */
  const InputDevicesKeywords: seq<(string, Band)> := [
    ("keyboard", Band("Input Devices", "Keyboards", 150, 600)),
    ("mouse", Band("Input Devices", "Mice", 100, 400)),
    ("combo", Band("Input Devices", "Keyboard & Mouse", 200, 700)),
    ("mouse pad", Band("Input Devices", "Mouse Pads", 50, 200))
  ]

  /** Hair Care. */
  const HairCareKeywords: seq<(string, Band)> := [
    ("hair clipper", Band("Personal Care", "Hair Clippers", 200, 600)),
    ("clipper", Band("Personal Care", "Hair Clippers", 200, 600))
  ]

  /** Cables & Adapters, simple generator. */
  const SimpleCables: seq<(string, Band)> := [
    ("cable", Band("Accessories", "Cables", 30, 200)),
    ("hdmi", Band("Accessories", "Cables", 50, 300)),
    ("adapter", Band("Accessories", "Adapters", 50, 300)),
    ("converter", Band("Accessories", "Converters", 80, 400)),
    ("hub", Band("Accessories", "USB Hubs", 150, 600))
  ]

  /** The groups before the cables group, in source order. */
  const LeadingGroups: seq<(string, Band)> :=
    ComputingKeywords + MobileKeywords + GamingKeywords + AudioVideoKeywords +
    NetworkingKeywords + StorageKeywords + DisplaysKeywords

  /** The groups after the cables group, in source order. */
  const TrailingGroups: seq<(string, Band)> :=
    OfficeKeywords + PhotographyKeywords + WearablesKeywords + PowerKeywords + MediaKeywords +
    SecurityKeywords + InputDevicesKeywords + HairCareKeywords

  /** `CATEGORY_MAPPING` of the enhanced generator, as written (96 entries). */
  const EnhancedLiteral: seq<(string, Band)> := LeadingGroups + EnhancedCables + TrailingGroups

  /** `CATEGORY_MAPPING` of the simple generator, as written (94 entries). */
  const SimpleLiteral: seq<(string, Band)> := LeadingGroups + SimpleCables + TrailingGroups

  /** `brand_patterns` of `extract_brand_advanced`: brand and the lower-case patterns that
      identify it. 'hp ' and 'dell ' carry a trailing space, as written. */
  const BrandPatterns: seq<(string, seq<string>)> := [
    ("HP", ["hp "]),
    ("Dell", ["dell "]),
    ("Acer", ["acer", "aspire"]),
    ("Lenovo", ["lenovo"]),
    ("Canon", ["canon"]),
    ("Samsung", ["samsung"]),
    ("Nokia", ["nokia"]),
    ("Apple", ["airpods", "iphone", "imac"]),
    ("Sony", ["sony"]),
    ("JBL", ["jbl"]),
    ("Logitech", ["logitech"]),
    ("TP-Link", ["tp-link"]),
    ("D-Link", ["d-link", "dlink"]),
    ("Promate", ["promate"]),
    ("Nintendo", ["nintendo"]),
    ("DJI", ["dji"]),
    ("Fujifilm", ["fujifilm"]),
    ("SanDisk", ["sandisk"]),
    ("Seagate", ["seagate"]),
    ("Toshiba", ["toshiba"]),
    ("Transcend", ["transcend"]),
    ("Lexar", ["lexar"]),
    ("Meetion", ["meetion"]),
    ("Vertux", ["vertux"]),
    ("ZKTECO", ["zkteco"]),
    ("Akai", ["akai"]),
    ("Bruhm", ["bruhm"]),
    ("Boya", ["boya"]),
    ("Modio", ["modio"]),
    ("Redmi", ["redmi"]),
    ("Pegasus", ["pegasus"]),
    ("Philips", ["philips"]),
    ("POStech", ["postech"]),
    ("Nigachi", ["nigachi"]),
    ("Imation", ["imation"]),
    ("Dato", ["dato"]),
    ("Coopic", ["coopic"]),
    ("Onyx", ["onyx"]),
    ("Mi", ["mi tv"])
  ]
}
