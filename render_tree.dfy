/** The host framework's render-tree builder, seen only as the log of the
    commands a component issues on it. */
module RenderTree {
  import opened Reflection

  /** A handle to the callback that updates the bound value. */
  datatype EventCallback = EventCallback(handler: nat)

  /** The expression `() => model.Field`, identified by the field it reads. */
  datatype FieldExpression = FieldExpression(field: string)

  /** A reference to the model object an edit context edits. */
  datatype ModelRef = ModelRef(id: nat)

  /** The value of a component attribute: the bound value, the change
      callback or the value expression. */
  datatype AttributeValue<V> =
    | BoundValue(value: V)
    | ChangeCallback(callback: EventCallback)
    | BoundExpression(expression: FieldExpression)

  /** One argument of a reflective call; `TheBuilder` is the builder whose
      log records the call. */
  datatype InvokeArgument = TheBuilder | IndexArgument(index: int) | DataContextArgument(model: ModelRef) | NullArgument

  /** One entry of the log. `ChildRendering` records that the builder was
      handed to a control type's static `RenderChildren` method, found on
      `declaringType` when asked of `target`, with the given arguments; the
      entries that method issues follow it. */
  datatype Frame<V> =
    | Open(sequence: int, componentType: TypeRef)
    | Attribute(sequence: int, name: string, value: AttributeValue<V>)
    | ChildRendering(target: TypeRef, declaringType: TypeRef, arguments: seq<InvokeArgument>)
    | Close

  /** A class of log entries, for counting. */
  datatype FrameKind = OpenKind | CloseKind | AttributeKind(name: string) | ChildRenderingKind

  predicate IsKind<V>(f: Frame<V>, k: FrameKind) {
    match k
    case OpenKind => f.Open?
    case CloseKind => f.Close?
    case AttributeKind(n) => f.Attribute? && f.name == n
    case ChildRenderingKind => f.ChildRendering?
  }

  /** How many entries of `fs` are of kind `k`. */
  function Count<V>(fs: seq<Frame<V>>, k: FrameKind): (n: nat)
    ensures n <= |fs|
    ensures n == 0 <==> forall i :: 0 <= i < |fs| ==> !IsKind(fs[i], k)
  {
    if fs == [] then 0
    else (if IsKind(fs[0], k) then 1 else 0) + Count(fs[1..], k)
  }

  lemma {:induction false} CountAppend<V>(a: seq<Frame<V>>, b: seq<Frame<V>>, k: FrameKind)
    ensures Count(a + b, k) == Count(a, k) + Count(b, k)
    decreases |a|
  {
    if a == [] {
      assert a + b == b;
    } else {
      assert (a + b)[1..] == a[1..] + b;
      CountAppend(a[1..], b, k);
    }
  }

  /** Components opened and not yet closed after `fs`. */
  function Depth<V>(fs: seq<Frame<V>>): int {
    Count(fs, OpenKind) - Count(fs, CloseKind)
  }

  /** Every `Close` matches an earlier `Open`, and nothing is left open. */
  ghost predicate Balanced<V>(fs: seq<Frame<V>>) {
    Depth(fs) == 0 && forall k :: 0 <= k <= |fs| ==> Depth(fs[..k]) >= 0
  }

  /** Two balanced logs, one after the other, are balanced. */
  lemma BalancedAppend<V>(a: seq<Frame<V>>, b: seq<Frame<V>>)
    requires Balanced(a) && Balanced(b)
    ensures Balanced(a + b)
  {
    CountAppend(a, b, OpenKind);
    CountAppend(a, b, CloseKind);
    forall k | 0 <= k <= |a + b| ensures Depth((a + b)[..k]) >= 0 {
      if k <= |a| {
        assert (a + b)[..k] == a[..k];
      } else {
        assert (a + b)[..k] == a + b[..k - |a|];
        CountAppend(a, b[..k - |a|], OpenKind);
        CountAppend(a, b[..k - |a|], CloseKind);
      }
    }
  }

  /** A log that opens and closes nothing is balanced. */
  lemma StructureFreeBalanced<V>(fs: seq<Frame<V>>)
    requires forall i :: 0 <= i < |fs| ==> !fs[i].Open? && !fs[i].Close?
    ensures Balanced(fs)
  {
    forall k | 0 <= k <= |fs| ensures Depth(fs[..k]) == 0 {
      assert forall i :: 0 <= i < k ==> fs[..k][i] == fs[i];
    }
  }

  /** A component whose inner entries are balanced is balanced. */
  lemma Wrapped<V>(opening: Frame<V>, inner: seq<Frame<V>>)
    requires opening.Open? && Balanced(inner)
    ensures Balanced([opening] + inner + [Close])
  {
    var fs := [opening] + inner + [Close];
    CountAppend([opening] + inner, [Close], OpenKind);
    CountAppend([opening] + inner, [Close], CloseKind);
    CountAppend([opening], inner, OpenKind);
    CountAppend([opening], inner, CloseKind);
    forall k | 0 <= k <= |fs| ensures Depth(fs[..k]) >= 0 {
      if 1 <= k <= |inner| + 1 {
        assert fs[..k] == [opening] + inner[..k - 1];
        CountAppend([opening], inner[..k - 1], OpenKind);
        CountAppend([opening], inner[..k - 1], CloseKind);
      } else if k == |fs| {
        assert fs[..k] == fs;
      }
    }
  }

  /** The builder; only the commands the loader issues are modelled. */
  class RenderTreeBuilder<V> {
    var frames: seq<Frame<V>>

    constructor ()
      ensures frames == []
    {
      frames := [];
    }

    /** `OpenComponent(sequence, componentType)`. */
    method OpenComponent(sequence: int, componentType: TypeRef)
      modifies this
      ensures frames == old(frames) + [Open(sequence, componentType)]
    {
      frames := frames + [Open(sequence, componentType)];
    }

    /** `AddAttribute(sequence, name, value)`. */
    method AddAttribute(sequence: int, name: string, value: AttributeValue<V>)
      modifies this
      ensures frames == old(frames) + [Attribute(sequence, name, value)]
    {
      frames := frames + [Attribute(sequence, name, value)];
    }

    /** `CloseComponent()`. */
    method CloseComponent()
      modifies this
      ensures frames == old(frames) + [Close]
    {
      frames := frames + [Close];
    }

    /** Hands this builder to a static `RenderChildren` method: records the
        call, followed by the entries `appended` that the method issues. */
    method HandToRenderChildren(target: TypeRef, declaringType: TypeRef, arguments: seq<InvokeArgument>,
                                appended: seq<Frame<V>>)
      modifies this
      ensures frames == old(frames) + [ChildRendering(target, declaringType, arguments)] + appended
    {
      frames := frames + [ChildRendering(target, declaringType, arguments)] + appended;
    }
  }
}
