/**
 * The helpers of the filter bar (src/components/FilterBar.jsx): the look-up of a streaming
 * service's icon or branded label, the colour of an unknown service's button, its three-letter
 * label, and the colour of the active status button.
 */
module FilterBar {
  import opened Wrappers
  import opened Text

  // ---------------------------------------------------------------- services

  /** What a known service is drawn with: an icon from the icon CDN, or a branded text label. */
  datatype ServiceInfo = Icon(url: string) | Brand(caption: string, bg: string, fg: string)

  const ICON_CDN: string := "https://cdn.simpleicons.org/"

  /** The services the icon CDN knows: the icon's slug and its colour. */
  function IconEntry(key: string): Option<(string, string)> {
    if key == "netflix" then Some(("netflix", "E50914"))
    else if key == "apple" then Some(("appletv", "ffffff"))
    else if key == "hbo" then Some(("hbo", "ffffff"))
    else if key == "kodi" then Some(("kodi", "17B2E7"))
    else if key == "paramount" then Some(("paramountplus", "0064FF"))
    else if key == "max" then Some(("max", "002BE7"))
    else None
  }

  /** The services drawn as branded text. */
  function BrandEntry(key: string): Option<ServiceInfo> {
    if key == "disney" then Some(Brand("D+", "#0063e5", "#ffffff"))
    else if key == "prime" || key == "prime video" then Some(Brand("prime", "#1a98ff", "#ffffff"))
    else if key == "hulu" then Some(Brand("hulu", "#1CE783", "#000000"))
    else None
  }

  /** The look-up key of a service name: lower-cased, then trimmed. */
  function ServiceKey(service: string): string {
    Trim(Lower(service))
  }

  /** `getServiceIcon` on the tables' own entries: the icon table first, then the brand table. */
  function ServiceIcon(service: string): (r: Option<ServiceInfo>)
    ensures IconEntry(ServiceKey(service)).Some? ==>
      r == Some(Icon(ICON_CDN + IconEntry(ServiceKey(service)).value.0 + "/" + IconEntry(ServiceKey(service)).value.1))
    ensures IconEntry(ServiceKey(service)).None? ==> r == BrandEntry(ServiceKey(service))
    ensures r.None? <==> IconEntry(ServiceKey(service)).None? && BrandEntry(ServiceKey(service)).None?
  {
    var key := ServiceKey(service);
    match IconEntry(key)
    case Some((slug, color)) => Some(Icon(ICON_CDN + slug + "/" + color))
    case None => BrandEntry(key)
  }

  /** Names that differ only in letter case are the same service. */
  lemma ServiceIconIgnoresCase(a: string, b: string)
    requires Lower(a) == Lower(b)
    ensures ServiceIcon(a) == ServiceIcon(b)
  {
  }

  /** The key of a name that is already lower-case and has no surrounding white space is the name. */
  lemma PlainKey(service: string)
    requires Lower(service) == service
    requires service == [] || (!IsSpace(service[0]) && !IsSpace(service[|service| - 1]))
    ensures ServiceKey(service) == service
  {
    TrimUntouched(service);
  }

  /** 'prime' and 'prime video' are the same brand, and neither has an icon. */
  lemma PrimeEntries()
    ensures IconEntry("prime") == None && IconEntry("prime video") == None
    ensures BrandEntry("prime") == BrandEntry("prime video") == Some(Brand("prime", "#1a98ff", "#ffffff"))
  {
  }

  /** A service named 'prime' or 'prime video', in any letter case, is drawn as the same brand. */
  lemma PrimeAliases(service: string)
    requires Lower(service) == "prime" || Lower(service) == "prime video"
    ensures ServiceIcon(service) == Some(Brand("prime", "#1a98ff", "#ffffff"))
  {
    var key := Lower(service);
    assert key[0] == 'p' && (key[|key| - 1] == 'e' || key[|key| - 1] == 'o');
    TrimUntouched(key);
    PrimeEntries();
  }

  /**
   * The lower-case names that every JavaScript object inherits as properties: looking them up in
   * an object literal finds the inherited `Object` constructor or `Object.prototype`.
   */
  predicate Inherited(key: string) {
    key == "constructor" || key == "__proto__"
  }

  /**
   * `getServiceIcon` as the code behaves: for an inherited name the icon table's look-up finds a
   * truthy object without `slug` and `color`, so the URL holds "undefined" twice.
   */
  function ServiceIconAsWritten(service: string): Option<ServiceInfo> {
    var key := ServiceKey(service);
    if Inherited(key) then Some(Icon(ICON_CDN + "undefined/undefined"))
    else ServiceIcon(service)
  }

  lemma ConstructorEntries()
    ensures IconEntry("constructor") == None && BrandEntry("constructor") == None
  {
  }

  lemma ConstructorKey()
    ensures ServiceKey("Constructor") == "constructor"
  {
    assert Lower("Constructor") == "constructor";
    TrimUntouched("constructor");
  }

  /** A service called "Constructor" gets a broken icon where an unknown service's label is meant. */
  lemma ServiceIconInheritedKey()
    ensures ServiceIconAsWritten("Constructor") == Some(Icon(ICON_CDN + "undefined/undefined"))
    ensures ServiceIcon("Constructor") == None
  {
    ConstructorKey();
    ConstructorEntries();
  }

  /** An unknown service's button label: `service.slice(0, 3)`. */
  function UnknownServiceLabel(service: string): (shown: string)
    ensures |shown| == if |service| < 3 then |service| else 3
    ensures shown <= service
  {
    if |service| < 3 then service else service[..3]
  }

  // ---------------------------------------------------------------- fallback colour

  const FALLBACK_COLORS: seq<string> := [
    "bg-pink-500/20 text-pink-300 border-pink-500/40",
    "bg-orange-500/20 text-orange-300 border-orange-500/40",
    "bg-teal-500/20 text-teal-300 border-teal-500/40",
    "bg-violet-500/20 text-violet-300 border-violet-500/40"
  ]

  /**
   * `c.charCodeAt(0)` for one character of a `for ... of` walk over a string: the character's code
   * when it fits in one UTF-16 unit, otherwise the leading surrogate of its pair.
   */
  function CharCode(c: char): (code: nat)
    ensures code < 0x1_0000
  {
    if (c as int) < 0x1_0000 then c as int else 0xD800 + (c as int - 0x1_0000) / 0x400
  }

  /** The hash after the characters of `s`: each step multiplies by 31, adds the code and keeps the low byte. */
  function Hash(s: string): (h: nat)
    ensures h < 256
  {
    if s == [] then 0 else (Hash(s[..|s| - 1]) * 31 + CharCode(s[|s| - 1])) % 256
  }

  /** The hash of a name depends only on its characters' codes, one step per character. */
  lemma HashStep(s: string, c: char)
    ensures Hash(s + [c]) == (Hash(s) * 31 + CharCode(c)) % 256
  {
    assert (s + [c])[..|s|] == s;
  }

  /** `fallbackColor`: the colour the hash of the name picks. */
  method FallbackColor(service: string) returns (color: string)
    ensures color == FALLBACK_COLORS[Hash(service) % |FALLBACK_COLORS|]
    ensures color in FALLBACK_COLORS
    ensures service == "" ==> color == FALLBACK_COLORS[0]
  {
    var hash := 0;
    var i := 0;
    while i < |service|
      invariant 0 <= i <= |service|
      invariant 0 <= hash < 256
      invariant hash == Hash(service[..i])
    {
      var prefix := service[..i];
      HashStep(prefix, service[i]);
      assert prefix + [service[i]] == service[..i + 1];
      hash := (hash * 31 + CharCode(service[i])) % 256;
      i := i + 1;
    }
    assert service[..|service|] == service;
    color := FALLBACK_COLORS[hash % |FALLBACK_COLORS|];
  }

  // ---------------------------------------------------------------- active status

  const STATUS_DEFAULT_CLASS: string := "bg-purple-500/20 text-purple-400 border-purple-500/40"

  /** The classes of the three known statuses. */
  function StatusEntry(key: string): Option<string> {
    if key == "watched" then Some("bg-green-500/20 text-green-400 border-green-500/40")
    else if key == "watching" then Some("bg-blue-500/20 text-blue-400 border-blue-500/40")
    else if key == "want to watch" then Some("bg-amber-500/20 text-amber-400 border-amber-500/40")
    else None
  }

  /** `getStatusActiveClass` on the table's own entries; an absent status reads as ''. */
  function StatusActiveClass(status: Option<string>): (cls: string)
    ensures var key := if status.Some? then Lower(status.value) else "";
      cls == StatusEntry(key).GetOr(STATUS_DEFAULT_CLASS)
  {
    var lower := match status case Some(s) => Lower(s) case None => "";
    StatusEntry(lower).GetOr(STATUS_DEFAULT_CLASS)
  }

  /** Only the three statuses, in any letter case, get their own colour; everything else is purple. */
  lemma StatusActiveClassCases(status: Option<string>)
    ensures StatusActiveClass(status) != STATUS_DEFAULT_CLASS <==>
      status.Some? && Lower(status.value) in {"watched", "watching", "want to watch"}
    ensures status.None? ==> StatusActiveClass(status) == STATUS_DEFAULT_CLASS
  {
  }

  /**
   * `getStatusActiveClass` as the code behaves: for an inherited name the table look-up finds the
   * `Object` constructor or `Object.prototype`, which become the class text when rendered.
   */
  function StatusActiveClassAsWritten(status: Option<string>): string {
    var lower := match status case Some(s) => Lower(s) case None => "";
    if lower == "constructor" then "function Object() { [native code] }"
    else if lower == "__proto__" then "[object Object]"
    else StatusActiveClass(status)
  }

  /** A status called "Constructor" is drawn with the constructor's source text as its classes. */
  lemma StatusActiveClassInheritedKey()
    ensures StatusActiveClassAsWritten(Some("Constructor")) == "function Object() { [native code] }"
    ensures StatusActiveClass(Some("Constructor")) == STATUS_DEFAULT_CLASS
  {
    assert Lower("Constructor") == "constructor";
  }
}
