/** The pill navigation bar: how each item's link is rendered, which item
    carries the active marker, the pill text colour, and the mobile menu's
    open flag. */
module PillNav {
  import opened JsStrings

  datatype Item = Item(caption: string, href: string, ariaLabel: Option<string>)

  const DefaultBaseColor: string := "#ffffff"

  predicate IsExternal(href: string) {
    StartsWith(href, "http") || StartsWith(href, "//") || StartsWith(href, "mailto:") || StartsWith(href, "tel:")
  }

  predicate IsAnchor(href: string) {
    StartsWith(href, "#")
  }

  /** An external link is never an anchor. */
  lemma ExternalIsNotAnchor(href: string)
    requires IsExternal(href)
    ensures !IsAnchor(href)
  {
    if StartsWith(href, "http") {
      StartsWithExcludes(href, "http", "#");
    } else if StartsWith(href, "//") {
      StartsWithExcludes(href, "//", "#");
    } else if StartsWith(href, "mailto:") {
      StartsWithExcludes(href, "mailto:", "#");
    } else {
      StartsWithExcludes(href, "tel:", "#");
    }
  }

  /** A site path (one `/` followed by something other than `/`) is internal
      and goes through the router. */
  lemma SitePathIsRouted(href: string)
    requires |href| >= 2 && href[0] == '/' && href[1] != '/'
    ensures LinkKindOf(href) == Routed
  {
    StartsWithExcludes(href, href[..1], "http");
    StartsWithExcludes(href, href[..1], "mailto:");
    StartsWithExcludes(href, href[..1], "tel:");
    StartsWithExcludes(href, href[..1], "#");
  }

  /** A plain `<a>` element or a router `Link`. */
  datatype LinkKind = Plain | Routed

  /** The rule both lists use to pick the element. */
  function LinkKindOf(href: string): (k: LinkKind)
    ensures k == Plain <==> IsExternal(href) || IsAnchor(href)
  {
    if IsExternal(href) || IsAnchor(href) then Plain else Routed
  }

  /** `item.ariaLabel || item.caption`. */
  function AccessibleName(item: Item): (name: string)
    ensures item.ariaLabel.Some? && item.ariaLabel.value != [] ==> name == item.ariaLabel.value
    ensures item.ariaLabel.None? || item.ariaLabel.value == [] ==> name == item.caption
  {
    if item.ariaLabel.Some? && item.ariaLabel.value != [] then item.ariaLabel.value else item.caption
  }

  /** One rendered desktop pill. */
  datatype Pill = Pill(kind: LinkKind, href: string, name: string, caption: string, active: bool)

  /** One rendered mobile menu entry. */
  datatype MenuEntry = MenuEntry(kind: LinkKind, href: string, caption: string)

  /** The desktop list, one pill per item, in order. */
  function DesktopPills(items: seq<Item>, activeHref: Option<string>): (r: seq<Pill>)
    ensures |r| == |items|
    ensures forall i :: 0 <= i < |items| ==>
              r[i].href == items[i].href && r[i].caption == items[i].caption
              && r[i].kind == LinkKindOf(items[i].href) && r[i].name == AccessibleName(items[i])
    ensures forall i :: 0 <= i < |items| ==> (r[i].active <==> activeHref == Some(items[i].href))
  {
    if items == [] then []
    else
      var item := items[0];
      [Pill(LinkKindOf(item.href), item.href, AccessibleName(item), item.caption, activeHref == Some(item.href))]
      + DesktopPills(items[1..], activeHref)
  }

  /** The mobile list, one entry per item, in order. */
  function MobileEntries(items: seq<Item>): (r: seq<MenuEntry>)
    ensures |r| == |items|
    ensures forall i :: 0 <= i < |items| ==>
              r[i].href == items[i].href && r[i].caption == items[i].caption && r[i].kind == LinkKindOf(items[i].href)
  {
    if items == [] then []
    else [MenuEntry(LinkKindOf(items[0].href), items[0].href, items[0].caption)] + MobileEntries(items[1..])
  }

  /** `pillTextColor ?? baseColor`: only a missing colour falls back. */
  function ResolvedPillTextColor(pillTextColor: Option<string>, baseColor: string): (c: string)
    ensures pillTextColor.Some? ==> c == pillTextColor.value
    ensures pillTextColor.None? ==> c == baseColor
  {
    pillTextColor.GetOr(baseColor)
  }

  /** The mobile menu's React state: its open flag, and how many times the
      optional click callback would have been invoked. The menu's visibility
      is set by animations and is not part of this state. */
  class MobileMenu {
    var isOpen: bool
    var callbacks: nat

    constructor()
      ensures !isOpen && callbacks == 0
    {
      isOpen := false;
      callbacks := 0;
    }

    /** The hamburger button: flips the flag and invokes the optional callback. */
    method Toggle() returns (next: bool)
      modifies this
      ensures next == !old(isOpen) && isOpen == next
      ensures callbacks == old(callbacks) + 1
    {
      next := !isOpen;
      isOpen := next;
      callbacks := callbacks + 1;
    }

    /** Clicking any entry of the mobile list clears the open flag; it runs
        no animation, so the menu stays on screen. */
    method SelectEntry(entry: MenuEntry)
      modifies this
      ensures !isOpen && callbacks == old(callbacks)
    {
      isOpen := false;
    }
  }
}
