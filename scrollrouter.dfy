/** The scroll router: wheel, key and touch gestures walk one step up or down
    a fixed order of pages, guarded by a lock that stays held from the start
    of the exit animation until shortly after the route push. */
module ScrollRouter {
  import opened JsStrings

  /** The base path the site is served under. */
  const Base: string := "/SDP_team_52_demo_test"

  /** The pages in scroll order. */
  const Order: seq<string> := ["/", "/gallery", "/generatefromtext", "/generatefromimage", "/viewer"]

  /** Milliseconds the exit animation runs before the push. */
  const ExitMs: nat := 320

  /** Milliseconds after the push before the lock is released. */
  const ReleaseMs: nat := 80

  /** Strips the base path; the result is never empty and always starts
      with `/` when the base was stripped. */
  function NormalizePath(path: string): (r: string)
    ensures r != []
    ensures path == [] ==> r == "/"
    ensures StartsWith(path, Base) ==> r[0] == '/' && |r| <= |path| - |Base| + 1
    ensures path != [] && !StartsWith(path, Base) ==> r == path
  {
    if path == [] then "/"
    else if StartsWith(path, Base) then
      var rest := path[|Base|..];
      var stripped := if rest == [] then "/" else rest;
      if stripped[0] == '/' then stripped else "/" + stripped
    else path
  }

  /** Prefixing the base to a rooted path and normalizing gives the path back. */
  lemma NormalizeStripsBase(q: string)
    requires StartsWith(q, "/")
    ensures NormalizePath(Base + q) == q
  {
    var p := Base + q;
    assert p[..|Base|] == Base;
    assert p[|Base|..] == q;
  }

  lemma NormalizeBaseOnly()
    ensures NormalizePath(Base) == "/"
  {
    assert Base[..|Base|] == Base;
    assert Base[|Base|..] == [];
  }

  /** A base followed by a path without its leading slash still lands on a
      rooted path. */
  lemma NormalizeAddsSlash(q: string)
    requires q != [] && q[0] != '/'
    ensures NormalizePath(Base + q) == "/" + q
  {
    var p := Base + q;
    assert p[..|Base|] == Base;
    assert p[|Base|..] == q;
  }

  // ------------------------------------------------------------ order

  /** `indexOf`: the first position of `x` in `s`, or -1. */
  function IndexOf(s: seq<string>, x: string): (r: int)
    ensures -1 <= r < |s|
    ensures r == -1 <==> x !in s
    ensures r >= 0 ==> s[r] == x && forall j :: 0 <= j < r ==> s[j] != x
  {
    if s == [] then -1
    else if s[0] == x then 0
    else
      var k := IndexOf(s[1..], x);
      if k == -1 then -1 else k + 1
  }

  lemma OrderDistinct()
    ensures forall i, j :: 0 <= i < j < |Order| ==> Order[i] != Order[j]
  {
  }

  lemma OrderIndex(i: nat)
    requires i < |Order|
    ensures IndexOf(Order, Order[i]) == i
  {
    OrderDistinct();
  }

  /** Every page of the order is already normalized. */
  lemma OrderNormalized(i: nat)
    requires i < |Order|
    ensures NormalizePath(Order[i]) == Order[i]
  {
    assert !StartsWith(Order[i], Base) by {
      if i > 0 {
        assert Order[i][1] != Base[1];
      }
    }
  }

  datatype Direction = Up | Down

  /** The index `go` computes: one step in the direction, clamped to the order. */
  function NextIndex(idx: nat, dir: Direction): (r: nat)
    requires idx < |Order|
    ensures r < |Order|
    ensures r == idx || r == idx + 1 || r + 1 == idx
  {
    var next := if dir == Down && idx < |Order| - 1 then idx + 1 else idx;
    if dir == Up && idx > 0 then idx - 1 else next
  }

  /** The page `go` would navigate to from `pathname`, or None when it
      navigates nowhere. */
  function GoTarget(pathname: string, dir: Direction): (r: Option<string>)
    ensures pathname !in Order ==> r.None?
    ensures r.Some? ==> r.value in Order && r.value != pathname
  {
    var idx := IndexOf(Order, pathname);
    if idx == -1 then None
    else
      var next := NextIndex(idx, dir);
      if next == idx then None else Some(Order[next])
  }

  /** Moving down from any page but the last goes to the next page. */
  lemma GoDownSteps(i: nat)
    requires i + 1 < |Order|
    ensures GoTarget(Order[i], Down) == Some(Order[i + 1])
  {
    OrderIndex(i);
  }

  /** Moving up from any page but the first goes to the previous page. */
  lemma GoUpSteps(i: nat)
    requires 0 < i < |Order|
    ensures GoTarget(Order[i], Up) == Some(Order[i - 1])
  {
    OrderIndex(i);
  }

  /** At either end of the order the walk stops. */
  lemma GoStopsAtEnds()
    ensures GoTarget(Order[0], Up) == None
    ensures GoTarget(Order[|Order| - 1], Down) == None
  {
    OrderIndex(0);
    OrderIndex(|Order| - 1);
  }

  // --------------------------------------------------------- gestures

  function Abs(x: real): real {
    if x < 0.0 then -x else x
  }

  /** The wheel rule: small deltas are ignored, otherwise the sign decides. */
  function WheelDirection(deltaY: real): (r: Option<Direction>)
    ensures r.None? <==> -30.0 < deltaY < 30.0
    ensures r == Some(Down) <==> deltaY >= 30.0
    ensures r == Some(Up) <==> deltaY <= -30.0
  {
    if Abs(deltaY) < 30.0 then None
    else if deltaY > 0.0 then Some(Down)
    else Some(Up)
  }

  /** The key rule. */
  function KeyDirection(key: string): (r: Option<Direction>)
    ensures r == Some(Down) <==> key == "PageDown" || key == "ArrowDown"
    ensures r == Some(Up) <==> key == "PageUp" || key == "ArrowUp"
  {
    if key == "PageDown" || key == "ArrowDown" then Some(Down)
    else if key == "PageUp" || key == "ArrowUp" then Some(Up)
    else None
  }

  /** The swipe rule: upward swipes (end above start) go down the order. */
  function SwipeDirection(dy: real): (r: Option<Direction>)
    ensures r.None? <==> -50.0 <= dy <= 50.0
    ensures r == Some(Down) <==> dy < -50.0
  {
    if dy < -50.0 then Some(Down)
    else if dy > 50.0 then Some(Up)
    else None
  }

  // ----------------------------------------------------------- router

  /** Touch positions are CSS pixels; the pathname is the raw router path. */
  class Router {
    var pathname: string
    var lock: bool
    var touchStartY: Option<real>
    /** The route the exit timer will push when it fires. */
    var scheduled: Option<string>
    /** The release timer is running. */
    var releasing: bool
    /** The routes pushed so far, oldest first. */
    var pushed: seq<string>

    /** The two timers run one after the other and only while the lock is
        held; only pages of the order are ever pushed. */
    predicate Valid()
      reads this
    {
      (scheduled.Some? || releasing ==> lock)
      && !(scheduled.Some? && releasing)
      && (scheduled.Some? ==> scheduled.value in Order)
      && forall i :: 0 <= i < |pushed| ==> pushed[i] in Order
    }

    /** The page the handlers see: `usePathname() || '/'`, normalized. */
    function Page(): string
      reads this
    {
      NormalizePath(if pathname == [] then "/" else pathname)
    }

    constructor(rawPathname: string)
      ensures Valid()
      ensures pathname == rawPathname && !lock && touchStartY.None?
      ensures scheduled.None? && !releasing && pushed == []
    {
      pathname := rawPathname;
      lock := false;
      touchStartY := None;
      scheduled := None;
      releasing := false;
      pushed := [];
    }

    /** The router reports a new pathname (a re-render). */
    method Rerender(rawPathname: string)
      requires Valid()
      modifies this
      ensures Valid()
      ensures pathname == rawPathname
      ensures lock == old(lock) && touchStartY == old(touchStartY)
      ensures scheduled == old(scheduled) && releasing == old(releasing) && pushed == old(pushed)
    {
      pathname := rawPathname;
    }

    /** Starts the exit animation and schedules the push, unless locked. */
    method AnimateAndPush(nextPath: string)
      requires Valid() && nextPath in Order
      modifies this
      ensures Valid()
      ensures old(lock) ==> scheduled == old(scheduled) && releasing == old(releasing) && lock
      ensures !old(lock) ==> lock && scheduled == Some(nextPath) && !releasing
      ensures pathname == old(pathname) && touchStartY == old(touchStartY) && pushed == old(pushed)
    {
      if lock {
        return;
      }
      lock := true;
      scheduled := Some(nextPath);
    }

    /** The exit timer fires: the route is pushed and the release timer starts. */
    method ExitTimerFires()
      requires Valid()
      modifies this
      ensures Valid()
      ensures old(scheduled).Some? ==>
                pushed == old(pushed) + [old(scheduled).value] && scheduled.None? && releasing && lock
      ensures old(scheduled).None? ==>
                pushed == old(pushed) && scheduled.None? && releasing == old(releasing) && lock == old(lock)
      ensures pathname == old(pathname) && touchStartY == old(touchStartY)
    {
      if scheduled.Some? {
        pushed := pushed + [scheduled.value];
        scheduled := None;
        releasing := true;
      }
    }

    /** The release timer fires and the lock is dropped. */
    method ReleaseTimerFires()
      requires Valid()
      modifies this
      ensures Valid()
      ensures old(releasing) ==> !lock && !releasing
      ensures !old(releasing) ==> lock == old(lock) && releasing == old(releasing)
      ensures scheduled == old(scheduled) && pushed == old(pushed)
      ensures pathname == old(pathname) && touchStartY == old(touchStartY)
    {
      if releasing {
        releasing := false;
        lock := false;
      }
    }

    /** `go`: one step along the order from the current page, unless locked. */
    method Go(dir: Direction)
      requires Valid()
      modifies this
      ensures Valid()
      ensures old(lock) ==> lock && scheduled == old(scheduled) && releasing == old(releasing)
      ensures !old(lock) ==>
                match GoTarget(old(Page()), dir)
                case None => !lock && scheduled == old(scheduled) && releasing == old(releasing)
                case Some(t) => lock && scheduled == Some(t) && !releasing
      ensures pathname == old(pathname) && touchStartY == old(touchStartY) && pushed == old(pushed)
    {
      if lock {
        return;
      }
      var idx := IndexOf(Order, Page());
      if idx == -1 {
        return;
      }
      var next := NextIndex(idx, dir);
      if next == idx {
        return;
      }
      AnimateAndPush(Order[next]);
    }

    /** Goes in the direction when there is one. */
    method GoMaybe(dir: Option<Direction>)
      requires Valid()
      modifies this
      ensures Valid()
      ensures dir.None? || old(lock) ==>
                lock == old(lock) && scheduled == old(scheduled) && releasing == old(releasing)
      ensures dir.Some? && !old(lock) ==>
                match GoTarget(old(Page()), dir.value)
                case None => !lock && scheduled == old(scheduled) && releasing == old(releasing)
                case Some(t) => lock && scheduled == Some(t) && !releasing
      ensures pathname == old(pathname) && touchStartY == old(touchStartY) && pushed == old(pushed)
    {
      if dir.Some? {
        Go(dir.value);
      }
    }

    method OnWheel(deltaY: real)
      requires Valid()
      modifies this
      ensures Valid()
      ensures WheelDirection(deltaY).None? || old(lock) ==>
                lock == old(lock) && scheduled == old(scheduled) && releasing == old(releasing)
      ensures WheelDirection(deltaY).Some? && !old(lock) ==>
                match GoTarget(old(Page()), WheelDirection(deltaY).value)
                case None => !lock && scheduled == old(scheduled) && releasing == old(releasing)
                case Some(t) => lock && scheduled == Some(t) && !releasing
      ensures pathname == old(pathname) && touchStartY == old(touchStartY) && pushed == old(pushed)
    {
      GoMaybe(WheelDirection(deltaY));
    }

    method OnKey(key: string)
      requires Valid()
      modifies this
      ensures Valid()
      ensures KeyDirection(key).None? || old(lock) ==>
                lock == old(lock) && scheduled == old(scheduled) && releasing == old(releasing)
      ensures KeyDirection(key).Some? && !old(lock) ==>
                match GoTarget(old(Page()), KeyDirection(key).value)
                case None => !lock && scheduled == old(scheduled) && releasing == old(releasing)
                case Some(t) => lock && scheduled == Some(t) && !releasing
      ensures pathname == old(pathname) && touchStartY == old(touchStartY) && pushed == old(pushed)
    {
      GoMaybe(KeyDirection(key));
    }

    /** Records where the first touch started, or clears it when there is none. */
    method OnTouchStart(firstTouchY: Option<real>)
      requires Valid()
      modifies this
      ensures Valid()
      ensures touchStartY == firstTouchY
      ensures lock == old(lock) && scheduled == old(scheduled) && releasing == old(releasing)
      ensures pathname == old(pathname) && pushed == old(pushed)
    {
      touchStartY := firstTouchY;
    }

    /** Ends a swipe; a missing end position counts as no movement. */
    method OnTouchEnd(firstChangedY: Option<real>)
      requires Valid()
      modifies this
      ensures Valid()
      ensures old(touchStartY).None? ==>
                touchStartY.None? && lock == old(lock) && scheduled == old(scheduled) && releasing == old(releasing)
      ensures old(touchStartY).Some? ==>
                var dir := SwipeDirection(firstChangedY.GetOr(old(touchStartY).value) - old(touchStartY).value);
                touchStartY.None?
                && (dir.None? || old(lock) ==>
                      lock == old(lock) && scheduled == old(scheduled) && releasing == old(releasing))
                && (dir.Some? && !old(lock) ==>
                      match GoTarget(old(Page()), dir.value)
                      case None => !lock && scheduled == old(scheduled) && releasing == old(releasing)
                      case Some(t) => lock && scheduled == Some(t) && !releasing)
      ensures pathname == old(pathname) && pushed == old(pushed)
    {
      if touchStartY.None? {
        return;
      }
      var start := touchStartY.value;
      var endY := firstChangedY.GetOr(start);
      GoMaybe(SwipeDirection(endY - start));
      touchStartY := None;
    }
  }
}
