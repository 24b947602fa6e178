/**
 The blank-screen watchdog (apps/web/lib/hydrationRecovery.ts): an error listener and a
 poll that offers a reload when React's root is wedged, or when nothing has rendered for
 twelve seconds. `Watch` holds the script's variables; class `Script` is the script.
 */
module HydrationRecovery {
  import opened Texts
  import opened Wrappers

  const DWELL_MS := 1500
  const BACKSTOP_MS := 12000

  // ── The probe and the element count ─────────────────────────

  /** A property value as the probe sees it: null or undefined, a primitive, or an object. */
  datatype Slot<+T> = Nothing | Primitive | Obj(value: T)

  /** `finishedWork`: None when the property is missing, else whether it is set. */
  datatype FiberRoot = FiberRoot(finishedWork: Option<bool>)

  datatype Fiber = Fiber(stateNode: Slot<FiberRoot>, hasChild: bool)

  datatype Property = Property(key: string, value: Slot<Fiber>)

  datatype Status = NoKey | KeyButNull | NoStateNode | ShapeChanged | Wedged | Live | Threw

  const CONTAINER_PREFIX := "__reactContainer$"

  predicate IsContainerKey(key: string) {
    CONTAINER_PREFIX <= key
  }

  function ProbeFiber(host: Slot<Fiber>): Status {
    if !host.Obj? then KeyButNull
    else if !host.value.stateNode.Obj? then NoStateNode
    else
      var root := host.value.stateNode.value;
      if root.finishedWork.None? then ShapeChanged
      else if root.finishedWork.value && !host.value.hasChild then Wedged
      else Live
  }

  /** The first property under the container prefix. */
  function Container(document: seq<Property>): Option<Slot<Fiber>> {
    if document == [] then None
    else if IsContainerKey(document[0].key) then Some(document[0].value)
    else Container(document[1..])
  }

  /** `throws` stands for a document whose property access raises. */
  function Probe(document: seq<Property>, throws: bool): Status {
    if throws then Threw
    else
      var host := Container(document);
      if host.None? then NoKey else ProbeFiber(host.value)
  }

  /** Property k is the first one React could have put on the document. */
  predicate FirstContainer(document: seq<Property>, k: nat) {
    && k < |document| && "__reactContainer$" <= document[k].key
    && forall j | 0 <= j < k :: !("__reactContainer$" <= document[j].key)
  }

  /** React has completed a render under property k and has never committed a child. */
  predicate Stuck(document: seq<Property>, k: nat) {
    && FirstContainer(document, k) && document[k].value.Obj?
    && var fiber := document[k].value.value;
       !fiber.hasChild && fiber.stateNode.Obj? && fiber.stateNode.value.finishedWork == Some(true)
  }

  /** What each status says about the document. */
  ghost predicate Shows(document: seq<Property>, throws: bool, status: Status) {
    match status
    case Threw => throws
    case NoKey => !throws && forall j | 0 <= j < |document| :: !("__reactContainer$" <= document[j].key)
    case KeyButNull => !throws && exists k: nat :: FirstContainer(document, k) && !document[k].value.Obj?
    case NoStateNode =>
      !throws && exists k: nat ::
        FirstContainer(document, k) && document[k].value.Obj? && !document[k].value.value.stateNode.Obj?
    case ShapeChanged =>
      !throws && exists k: nat ::
        && FirstContainer(document, k) && document[k].value.Obj? && document[k].value.value.stateNode.Obj?
        && document[k].value.value.stateNode.value.finishedWork.None?
    case Wedged => !throws && exists k: nat :: Stuck(document, k)
    case Live =>
      !throws && exists k: nat ::
        && FirstContainer(document, k) && document[k].value.Obj? && document[k].value.value.stateNode.Obj?
        && document[k].value.value.stateNode.value.finishedWork.Some? && !Stuck(document, k)
  }

  lemma {:induction false} ContainerIsFirst(document: seq<Property>) returns (k: nat)
    ensures Container(document).None? <==> k == |document|
    ensures k == |document| ==> forall j | 0 <= j < |document| :: !("__reactContainer$" <= document[j].key)
    ensures k < |document| ==> FirstContainer(document, k) && Container(document) == Some(document[k].value)
    ensures k <= |document|
  {
    if document == [] || IsContainerKey(document[0].key) {
      k := 0;
    } else {
      k := ContainerIsFirst(document[1..]);
      assert forall j | 1 <= j < |document| :: document[j] == document[1..][j - 1];
      k := k + 1;
    }
  }

  /** The probe answers each of the seven statuses exactly where the document shows it. */
  lemma ProbeExactly(document: seq<Property>, throws: bool, status: Status)
    ensures Probe(document, throws) == status <==> Shows(document, throws, status)
  {
    var k := ContainerIsFirst(document);
    assert forall i: nat | FirstContainer(document, i) :: i == k;
    if k < |document| && Probe(document, throws) == Wedged {
      assert Stuck(document, k);
    }
  }

  method ProbeRoot(document: seq<Property>, throws: bool) returns (status: Status)
    ensures status == Probe(document, throws)
    ensures Shows(document, throws, status)
  {
    ProbeExactly(document, throws, Probe(document, throws));
    if throws {
      return Threw;
    }
    for i := 0 to |document|
      invariant Container(document) == Container(document[i..])
    {
      if IsContainerKey(document[i].key) {
        return ProbeFiber(document[i].value);
      }
    }
    status := NoKey;
  }

  predicate HasContent(tags: seq<string>) {
    exists i | 0 <= i < |tags| :: tags[i] !in SKIP
  }

  const SKIP: set<string> := {"SCRIPT", "TEMPLATE", "STYLE", "LINK"}

  method RenderedCount(tags: seq<string>) returns (n: nat)
    ensures n > 0 <==> HasContent(tags)
  {
    n := 0;
    for i := 0 to |tags|
      invariant n > 0 <==> exists j | 0 <= j < i :: tags[j] !in SKIP
    {
      if tags[i] !in SKIP {
        n := n + 1;
      }
    }
  }

  // ── The script's variables ──────────────────────────────────

  datatype Reason = WedgedRoot | Backstop

  /** The recovery box: why and when it was shown. */
  datatype Box = Box(reason: Reason, at: nat)

  /** `wedgeSince` is 0 when no dwell is under way; `ticking` is the interval timer. */
  datatype Watch = Watch(
    t0: nat,
    sawFatal: bool,
    retryAfterFatal: bool,
    wedgeSince: nat,
    box: Option<Box>,
    ticking: bool)

  function Start(t0: nat): Watch {
    Watch(t0, false, false, 0, None, true)
  }

  predicate IsFatal(msg: string) {
    Occurs("#329", msg)
  }

  predicate IsRetry(msg: string) {
    !IsFatal(msg) && (Occurs("#418", msg) || Occurs("#423", msg))
  }

  function OnError(w: Watch, msg: string): Watch {
    if IsFatal(msg) then w.(sawFatal := true)
    else if w.sawFatal && IsRetry(msg) then w.(retryAfterFatal := true)
    else w
  }

  function Show(w: Watch, reason: Reason, now: nat): Watch {
    if w.box.Some? then w else w.(box := Some(Box(reason, now)), ticking := false)
  }

  function Poll(w: Watch, now: nat, rendered: bool, status: Status): Watch {
    if w.box.Some? then w
    else if rendered then w.(ticking := false)
    else if status == Wedged && !w.retryAfterFatal && w.wedgeSince != 0 && now - w.wedgeSince >= DWELL_MS then
      Show(w, WedgedRoot, now)
    else
      var since :=
        if status == Wedged && !w.retryAfterFatal then (if w.wedgeSince == 0 then now else w.wedgeSince) else 0;
      var w' := w.(wedgeSince := since);
      if now - w.t0 >= BACKSTOP_MS then Show(w', Backstop, now) else w'
  }

  // ── The script ──────────────────────────────────────────────

  class Script {
    const t0: nat
    var sawFatal: bool
    var retryAfterFatal: bool
    var wedgeSince: nat
    var shown: bool
    var box: Option<Box>
    var timer: bool

    predicate Valid()
      reads this
    {
      (shown <==> box.Some?) && (shown ==> !timer)
    }

    function View(): Watch
      reads this
    {
      Watch(t0, sawFatal, retryAfterFatal, wedgeSince, box, timer)
    }

    constructor (now: nat)
      ensures Valid() && View() == Start(now)
    {
      t0 := now;
      sawFatal, retryAfterFatal, wedgeSince, shown, box, timer := false, false, 0, false, None, true;
    }

    /** `readable` is false when reading the event's message raises. */
    method OnErrorEvent(message: string, readable: bool)
      requires Valid()
      modifies this
      ensures Valid() && View() == OnError(old(View()), if readable then message else "")
    {
      var msg := if readable then message else "";
      if IsFatal(msg) {
        sawFatal := true;
        return;
      }
      if sawFatal && (Occurs("#418", msg) || Occurs("#423", msg)) {
        retryAfterFatal := true;
      }
    }

    method ShowBox(reason: Reason, now: nat)
      requires Valid()
      modifies this
      ensures Valid() && View() == Show(old(View()), reason, now)
    {
      if shown {
        return;
      }
      shown := true;
      timer := false;
      box := Some(Box(reason, now));
    }

    method Tick(now: nat, tags: seq<string>, document: seq<Property>, throws: bool)
      requires Valid()
      modifies this
      ensures Valid() && View() == Poll(old(View()), now, HasContent(tags), Probe(document, throws))
    {
      if shown {
        return;
      }
      var n := RenderedCount(tags);
      if n > 0 {
        timer := false;
        return;
      }
      var status := ProbeRoot(document, throws);
      if status == Wedged && !retryAfterFatal {
        if wedgeSince == 0 {
          wedgeSince := now;
        } else if now - wedgeSince >= DWELL_MS {
          ShowBox(WedgedRoot, now);
          return;
        }
      } else {
        wedgeSince := 0;
      }
      if now - t0 >= BACKSTOP_MS {
        ShowBox(Backstop, now);
      }
    }
  }
}
