/**
 Two small lookups in the page script: the `as` attribute given to preload
 links, and the background colour of a notification banner.
 */
module PageHelpers {
  import opened Wrappers
  import opened Text

  const CriticalResources := ["/css/modern.css", "/js/modern.js"]

  /** The `as` of a preload link: a stylesheet for `.css`, a script otherwise. */
  function PreloadDestination(resource: string): (d: string)
    ensures d == "style" <==> EndsWith(resource, ".css")
    ensures d == "script" <==> !EndsWith(resource, ".css")
  {
    if EndsWith(resource, ".css") then "style" else "script"
  }

  datatype PreloadLink = PreloadLink(href: string, destination: string)

  function PreloadLinks(resources: seq<string>): (links: seq<PreloadLink>)
    ensures |links| == |resources|
    ensures forall i | 0 <= i < |resources| ::
              links[i].href == resources[i] && links[i].destination == PreloadDestination(resources[i])
  {
    if resources == [] then [] else [PreloadLink(resources[0], PreloadDestination(resources[0]))] + PreloadLinks(resources[1..])
  }

  /** The page preloads its stylesheet as a style and its script as a script. */
  lemma CriticalResourcesPreloaded()
    ensures PreloadLinks(CriticalResources) ==
              [PreloadLink("/css/modern.css", "style"), PreloadLink("/js/modern.js", "script")]
  {
    assert EndsWith("/css/modern.css", ".css");
    assert "/js/modern.js"[9] == 'n';
  }

  const InfoColour := "#3b82f6"

  /** The `colors` object literal. */
  const Palette: map<string, string> :=
    map["success" := "#10b981", "error" := "#ef4444", "info" := InfoColour, "warning" := "#f59e0b"]

  /** Property names every plain object inherits from `Object.prototype`; looking
      one of them up on `colors` yields a function or an object, not a colour. */
  const InheritedMembers: set<string> := {
    "constructor", "hasOwnProperty", "isPrototypeOf", "propertyIsEnumerable",
    "toLocaleString", "toString", "valueOf", "__proto__",
    "__defineGetter__", "__defineSetter__", "__lookupGetter__", "__lookupSetter__"
  }

  /** The notification type, `info` when the caller passes none. */
  function TypeOrDefault(kind: Option<string>): string {
    kind.GetOr("info")
  }

  /** `colors[type] || colors.info` as written, assigned to `backgroundColor`:
      an inherited member is truthy, so no fallback happens, and the browser
      rejects its string form as a colour, leaving the background unset (`None`). */
  function BackgroundColour(kind: Option<string>): (r: Option<string>)
    ensures TypeOrDefault(kind) in Palette ==> r == Some(Palette[TypeOrDefault(kind)])
    ensures TypeOrDefault(kind) in InheritedMembers ==> r == None
    ensures TypeOrDefault(kind) !in Palette && TypeOrDefault(kind) !in InheritedMembers ==> r == Some(InfoColour)
  {
    var t := TypeOrDefault(kind);
    if t in Palette then Some(Palette[t])
    else if t in InheritedMembers then None
    else Some(InfoColour)
  }

  /** The colour the banner is meant to get: the palette entry for a known type
      and the info colour for anything else. */
  function IntendedBackgroundColour(kind: Option<string>): (colour: string)
    ensures colour in Palette.Values
    ensures colour == InfoColour <==> TypeOrDefault(kind) !in {"success", "error", "warning"}
  {
    var t := TypeOrDefault(kind);
    assert Palette["info"] == InfoColour;
    if t in Palette then Palette[t] else InfoColour
  }

  /** Apart from the inherited member names, the code gives the intended colour. */
  lemma BackgroundColourAgreesOutsideInherited(kind: Option<string>)
    requires TypeOrDefault(kind) !in InheritedMembers
    ensures BackgroundColour(kind) == Some(IntendedBackgroundColour(kind))
  {
  }

  /** The discrepancy: type "toString" gets no background at all instead of the info colour. */
  lemma InheritedNameGetsNoColour()
    ensures BackgroundColour(Some("toString")) == None
    ensures IntendedBackgroundColour(Some("toString")) == InfoColour
  {
    assert "toString" !in Palette;
  }
}
