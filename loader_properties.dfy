/** What one render pass of the element loader promises, proved of the
    value-level model that `CreateComponent` is verified against. Entries
    appended by a control's own `RenderChildren` method are kept apart from
    the loader's own. */
module LoaderProperties {
  import opened Wrappers
  import opened Reflection
  import opened Strings
  import opened RenderTree
  import opened ElementLoader

  /** The element type a found key resolves to, when resolution succeeds. */
  predicate Resolves<V>(s: LoaderState<V>, elementType: TypeRef) {
    ResolveElementType(s.repo, s.formElementType, s.valueType) == Some(Ok(elementType))
  }

  /** The pass reaches `RenderChildren` with a method to call. */
  predicate InvokesRenderChildren<V>(s: LoaderState<V>) {
    s.formElementType in s.repo &&
    ResolveElementType(s.repo, s.formElementType, s.valueType).value.Ok? &&
    s.cascadedEditContext.Some? &&
    var t := ResolveElementType(s.repo, s.formElementType, s.valueType).value.value;
    TypeImplementsInterface(t, IRenderChildren) && FindPublicStaticMethod(t, RenderChildrenMethod).Some?
  }

  /** The entries the control's `RenderChildren` method appends in this
      pass: none when it is not called. */
  function ChildFrames<V>(s: LoaderState<V>): seq<Frame<V>> {
    if InvokesRenderChildren(s) then
      var t := ResolveElementType(s.repo, s.formElementType, s.valueType).value.value;
      s.renderChildren(FindPublicStaticMethod(t, RenderChildrenMethod).value, ChildrenStartIndex,
                       s.cascadedEditContext.value.model)
    else []
  }

  /** An unknown key emits nothing and raises nothing. */
  lemma UnknownKeyEmitsNothing<V>(s: LoaderState<V>)
    requires s.formElementType !in s.repo
    ensures RenderPass(s) == Pass([], Completed)
  {
  }

  /** The emitted component is the registered type, or the registered open
      definition closed over `TValue` alone. */
  lemma EmittedComponentType<V>(s: LoaderState<V>)
    requires s.formElementType in s.repo && s.cascadedEditContext.Some?
    requires var def := s.repo[s.formElementType]; def.isGenericDefinition ==> def.parameterCount == 1
    ensures RenderPass(s).frames != [] && RenderPass(s).frames[0].Open?
    ensures var def := s.repo[s.formElementType];
            var emitted := RenderPass(s).frames[0];
            emitted.sequence == 0 &&
            (!def.isGenericDefinition ==> emitted.componentType == def) &&
            (def.isGenericDefinition ==>
               emitted.componentType == def.(isGenericDefinition := false, args := [s.valueType]))
  {
  }

  /** A definition that does not take exactly one type argument fails the
      pass before anything is emitted. */
  lemma WrongArityFails<V>(s: LoaderState<V>)
    requires s.formElementType in s.repo
    requires var def := s.repo[s.formElementType]; def.isGenericDefinition && def.parameterCount != 1
    ensures RenderPass(s).frames == []
    ensures RenderPass(s).outcome.Faulted? && RenderPass(s).outcome.failure.GenericArityMismatch?
  {
  }

  /** The entries of a pass: the opening entry and the three bindings, then
      the `RenderChildren` call and what it appends, if it is called, then
      the close, unless an exception stopped the pass first. */
  lemma PassShape<V>(s: LoaderState<V>)
    ensures var p := RenderPass(s);
            p.frames == [] || (
              exists t :: (Resolves(s, t) && |p.frames| >= 4 &&
                           p.frames[..4] == [Open(0, t),
                                             Attribute(1, ValueAttribute, BoundValue(s.value)),
                                             Attribute(2, ValueChangedAttribute, ChangeCallback(s.valueChanged)),
                                             Attribute(4, ValueExpressionAttribute, BoundExpression(s.valueExpression))]))
    ensures var p := RenderPass(s);
            p.outcome.Completed? && p.frames != [] ==>
              |p.frames| == 5 + (if InvokesRenderChildren(s) then 1 + |ChildFrames(s)| else 0) &&
              p.frames[|p.frames| - 1] == Close &&
              (InvokesRenderChildren(s) ==> p.frames[4].ChildRendering? && p.frames[5..|p.frames| - 1] == ChildFrames(s))
    ensures var p := RenderPass(s);
            p.outcome.Faulted? ==> |p.frames| == 0 || |p.frames| == 4
  {
    match ResolveElementType(s.repo, s.formElementType, s.valueType)
    case None =>
    case Some(Err(_)) =>
    case Some(Ok(t)) =>
      if s.cascadedEditContext.Some? {
        assert Resolves(s, t);
      }
  }

  lemma HeadCounts<V>(s: LoaderState<V>, t: TypeRef, k: FrameKind)
    ensures k == CloseKind || k == ChildRenderingKind ==> Count(ComponentHead(s, t), k) == 0
    ensures (k == OpenKind || k == AttributeKind(ValueAttribute) || k == AttributeKind(ValueChangedAttribute) ||
             k == AttributeKind(ValueExpressionAttribute)) ==> Count(ComponentHead(s, t), k) == 1
  {
    var h := ComponentHead(s, t);
    assert h == [h[0]] + [h[1]] + [h[2]] + [h[3]];
    CountAppend([h[0]] + [h[1]] + [h[2]], [h[3]], k);
    CountAppend([h[0]] + [h[1]], [h[2]], k);
    CountAppend([h[0]], [h[1]], k);
  }

  /** A found, resolved key with an edit context: the pass is the head, the
      interface actions and, on completion, the close. */
  lemma FoundPass<V>(s: LoaderState<V>, t: TypeRef)
    requires Resolves(s, t) && s.cascadedEditContext.Some?
    ensures var actions := InterfaceActions(s.renderChildren, s.cascadedEditContext.value.model, ChildrenStartIndex, t);
            RenderPass(s).frames ==
              ComponentHead(s, t) + actions.frames + (if actions.outcome.Completed? then [Close] else []) &&
            RenderPass(s).outcome == actions.outcome
    ensures InterfaceActions(s.renderChildren, s.cascadedEditContext.value.model, ChildrenStartIndex, t).frames ==
            (if InvokesRenderChildren(s)
             then [InterfaceActions(s.renderChildren, s.cascadedEditContext.value.model, ChildrenStartIndex, t).frames[0]] + ChildFrames(s)
             else [])
  {
  }

  /** A completed pass is balanced when what `RenderChildren` appends is; a
      faulted pass leaves at most the one component it opened unclosed. */
  lemma PassBalanced<V>(s: LoaderState<V>)
    requires Balanced(ChildFrames(s))
    ensures RenderPass(s).outcome.Completed? ==> Balanced(RenderPass(s).frames)
    ensures RenderPass(s).outcome.Faulted? ==>
              Depth(RenderPass(s).frames) == (if RenderPass(s).frames == [] then 0 else 1)
  {
    var p := RenderPass(s);
    match ResolveElementType(s.repo, s.formElementType, s.valueType)
    case None =>
      assert p.frames == [];
    case Some(Err(_)) =>
      assert p.frames == [];
    case Some(Ok(t)) =>
      if s.cascadedEditContext.Some? {
        FoundPass(s, t);
        var head := ComponentHead(s, t);
        var actions := InterfaceActions(s.renderChildren, s.cascadedEditContext.value.model, ChildrenStartIndex, t);
        if actions.outcome.Completed? {
          CompletedFoundBalanced(s, t);
        } else {
          assert p.frames == head;
          HeadCounts(s, t, OpenKind);
          HeadCounts(s, t, CloseKind);
        }
      } else {
        assert p.frames == [];
      }
  }

  /** The completed case of `PassBalanced`: the loader's own entries between
      the opening and the close carry no structure, and the child entries
      are balanced. */
  lemma CompletedFoundBalanced<V>(s: LoaderState<V>, t: TypeRef)
    requires Resolves(s, t) && s.cascadedEditContext.Some? && Balanced(ChildFrames(s))
    requires InterfaceActions(s.renderChildren, s.cascadedEditContext.value.model, ChildrenStartIndex, t).outcome.Completed?
    ensures Balanced(RenderPass(s).frames)
  {
    FoundPass(s, t);
    var head := ComponentHead(s, t);
    var actions := InterfaceActions(s.renderChildren, s.cascadedEditContext.value.model, ChildrenStartIndex, t);
    var own := head[1..] + actions.frames[..if InvokesRenderChildren(s) then 1 else 0];
    assert head[1..] + actions.frames == own + ChildFrames(s);
    StructureFreeBalanced(own);
    BalancedAppend(own, ChildFrames(s));
    assert RenderPass(s).frames == [head[0]] + (own + ChildFrames(s)) + [Close];
    Wrapped(head[0], own + ChildFrames(s));
  }

  /** Issuing a completed pass on a balanced builder keeps it balanced, when
      what `RenderChildren` appends is balanced. */
  lemma BuilderStaysBalanced<V>(before: seq<Frame<V>>, s: LoaderState<V>)
    requires Balanced(before) && Balanced(ChildFrames(s)) && RenderPass(s).outcome.Completed?
    ensures Balanced(before + RenderPass(s).frames)
  {
    PassBalanced(s);
    BalancedAppend(before, RenderPass(s).frames);
  }

  /** The entries `FoundPass` puts before and after the child entries:
      the call record, if there is one, and the close, on completion. */
  function CallRecord<V>(s: LoaderState<V>, t: TypeRef): seq<Frame<V>>
    requires Resolves(s, t) && s.cascadedEditContext.Some?
  {
    var actions := InterfaceActions(s.renderChildren, s.cascadedEditContext.value.model, ChildrenStartIndex, t);
    if InvokesRenderChildren(s) then actions.frames[..1] else []
  }

  function Closing<V>(s: LoaderState<V>, t: TypeRef): seq<Frame<V>>
    requires Resolves(s, t) && s.cascadedEditContext.Some?
  {
    var actions := InterfaceActions(s.renderChildren, s.cascadedEditContext.value.model, ChildrenStartIndex, t);
    if actions.outcome.Completed? then [Close] else []
  }

  /** Counting over a found pass, part by part. */
  lemma FoundCount<V>(s: LoaderState<V>, t: TypeRef, k: FrameKind)
    requires Resolves(s, t) && s.cascadedEditContext.Some?
    ensures Count(RenderPass(s).frames, k) ==
            Count(ComponentHead(s, t), k) + Count(CallRecord(s, t), k) + Count(ChildFrames(s), k) + Count(Closing(s, t), k)
    ensures forall i :: 0 <= i < |CallRecord(s, t)| ==> CallRecord(s, t)[i].ChildRendering?
    ensures |CallRecord(s, t)| == if InvokesRenderChildren(s) then 1 else 0
    ensures forall i :: 0 <= i < |Closing(s, t)| ==> Closing(s, t)[i].Close?
  {
    FoundPass(s, t);
    var head, calls, children, closing := ComponentHead(s, t), CallRecord(s, t), ChildFrames(s), Closing(s, t);
    assert RenderPass(s).frames == head + (calls + (children + closing));
    CountAppend(head, calls + (children + closing), k);
    CountAppend(calls, children + closing, k);
    CountAppend(children, closing, k);
  }

  /** Apart from what `RenderChildren` appends, a pass holds exactly one
      opening entry and one of each binding when it emits anything, and
      none otherwise: the bindings never appear as a subset. */
  lemma BindingsTogether<V>(s: LoaderState<V>)
    ensures var fs := RenderPass(s).frames;
            var own := if fs == [] then 0 else 1;
            Count(fs, OpenKind) == Count(ChildFrames(s), OpenKind) + own &&
            Count(fs, AttributeKind(ValueAttribute)) == Count(ChildFrames(s), AttributeKind(ValueAttribute)) + own &&
            Count(fs, AttributeKind(ValueChangedAttribute)) == Count(ChildFrames(s), AttributeKind(ValueChangedAttribute)) + own &&
            Count(fs, AttributeKind(ValueExpressionAttribute)) == Count(ChildFrames(s), AttributeKind(ValueExpressionAttribute)) + own
  {
    match ResolveElementType(s.repo, s.formElementType, s.valueType)
    case None =>
    case Some(Err(_)) =>
    case Some(Ok(t)) =>
      if s.cascadedEditContext.Some? {
        var kinds := [OpenKind, AttributeKind(ValueAttribute), AttributeKind(ValueChangedAttribute), AttributeKind(ValueExpressionAttribute)];
        forall k | k in kinds
          ensures Count(RenderPass(s).frames, k) == Count(ChildFrames(s), k) + 1
        {
          FoundCount(s, t, k);
          HeadCounts(s, t, k);
        }
      }
  }

  /** Apart from what `RenderChildren` appends, the pass records the call
      once exactly when the element type has an interface named
      `IRenderChildren` and a public static `RenderChildren` method is found
      for it, and never otherwise. */
  lemma ChildRenderingOnce<V>(s: LoaderState<V>)
    ensures Count(RenderPass(s).frames, ChildRenderingKind) ==
            Count(ChildFrames(s), ChildRenderingKind) + (if InvokesRenderChildren(s) then 1 else 0)
    ensures !InvokesRenderChildren(s) ==> Count(RenderPass(s).frames, ChildRenderingKind) == 0
  {
    match ResolveElementType(s.repo, s.formElementType, s.valueType)
    case None =>
    case Some(Err(_)) =>
    case Some(Ok(t)) =>
      if s.cascadedEditContext.Some? {
        FoundCount(s, t, ChildRenderingKind);
        HeadCounts(s, t, ChildRenderingKind);
        var calls := CallRecord(s, t);
        if InvokesRenderChildren(s) {
          assert calls == [calls[0]];
        }
      }
  }

  /** The call hands over the builder, the start index 6, the edit
      context's model and null, names the type the method was found on, and
      follows the bindings. */
  lemma RenderChildrenArgumentsForwarded<V>(s: LoaderState<V>)
    requires InvokesRenderChildren(s)
    ensures var t := ResolveElementType(s.repo, s.formElementType, s.valueType).value.value;
            |RenderPass(s).frames| == 6 + |ChildFrames(s)| &&
            RenderPass(s).frames[4] ==
              ChildRendering(t, FindPublicStaticMethod(t, RenderChildrenMethod).value,
                             [TheBuilder, IndexArgument(6), DataContextArgument(s.cascadedEditContext.value.model), NullArgument])
  {
  }

  /** A type that claims `IRenderChildren` without a public static
      `RenderChildren` method fails the pass after the bindings, leaving
      its component open; it is not skipped. */
  lemma MissingRenderChildrenFails<V>(s: LoaderState<V>, t: TypeRef)
    requires Resolves(s, t) && s.cascadedEditContext.Some?
    requires TypeImplementsInterface(t, IRenderChildren) && FindPublicStaticMethod(t, RenderChildrenMethod).None?
    ensures RenderPass(s) == Pass(ComponentHead(s, t), Faulted(MissingRenderChildren(t)))
  {
  }

  /** Matching `IRenderAsFormElement` alone changes nothing: the actions of
      such a type emit nothing and complete. */
  lemma RenderAsFormElementHasNoEffect<V>(renderChildren: ChildRenderer<V>, dataContext: ModelRef, indexBuilder: int, t: TypeRef)
    requires TypeImplementsInterface(t, IRenderAsFormElement) && !TypeImplementsInterface(t, IRenderChildren)
    ensures InterfaceActions(renderChildren, dataContext, indexBuilder, t) == Pass([], Completed)
  {
  }

  /** The bound values reach the component unmodified. */
  lemma BindingsForwarded<V>(s: LoaderState<V>)
    requires RenderPass(s).frames != []
    ensures |RenderPass(s).frames| >= 4
    ensures RenderPass(s).frames[1] == Attribute(1, ValueAttribute, BoundValue(s.value))
    ensures RenderPass(s).frames[2] == Attribute(2, ValueChangedAttribute, ChangeCallback(s.valueChanged))
    ensures RenderPass(s).frames[3] == Attribute(4, ValueExpressionAttribute, BoundExpression(s.valueExpression))
  {
  }

  // ---------------------------------------------------------------------
  // The helpers

  /** Matching is by simple name: an interface from elsewhere that shares
      the name matches, even when it is not the interface asked about. */
  lemma NameCollisionMatches(t: TypeRef, asked: TypeRef, impostor: TypeRef)
    requires impostor in t.interfaces && impostor.name == asked.name
    ensures TypeImplementsInterface(t, asked)
  {
  }

  /** Two interfaces with the same simple name are indistinguishable. */
  lemma SameNameSameAnswer(t: TypeRef, i1: TypeRef, i2: TypeRef)
    requires i1.name == i2.name
    ensures TypeImplementsInterface(t, i1) == TypeImplementsInterface(t, i2)
  {
  }

  /** Some type on the base chain is generic with the given definition. */
  ghost predicate HasGenericAncestor(t: TypeRef, genericType: TypeRef) {
    exists k :: 0 <= k < |BaseChain(t)| && BaseChain(t)[k].IsGenericType() &&
                GenericTypeDefinition(BaseChain(t)[k]) == genericType
  }

  /** The walk up the base chain finds exactly the generic ancestors. */
  lemma {:induction false} DerivedIffGenericAncestor(t: TypeRef, genericType: TypeRef)
    ensures IsTypeDerivedFromGenericType(Some(t), genericType) <==> HasGenericAncestor(t, genericType)
    decreases t
  {
    var chain := BaseChain(t);
    if t == ObjectType {
      assert chain == [ObjectType];
    } else if t.IsGenericType() && GenericTypeDefinition(t) == genericType {
      assert chain[0] == t;
    } else {
      match t.baseType
      case None =>
        assert chain == [t];
      case Some(b) =>
        DerivedIffGenericAncestor(b, genericType);
        assert chain == [t] + BaseChain(b);
        if HasGenericAncestor(t, genericType) {
          var k :| 0 <= k < |chain| && chain[k].IsGenericType() && GenericTypeDefinition(chain[k]) == genericType;
          assert k > 0 && chain[k] == BaseChain(b)[k - 1];
        }
        if HasGenericAncestor(b, genericType) {
          var k :| 0 <= k < |BaseChain(b)| && BaseChain(b)[k].IsGenericType() &&
                   GenericTypeDefinition(BaseChain(b)[k]) == genericType;
          assert chain[k + 1] == BaseChain(b)[k];
        }
    }
  }

  /** The merged string splits into the pieces of the instance's class
      attribute followed by the pieces of the joined defaults, whatever
      either holds; with a non-empty list of space-free defaults the latter
      are the defaults themselves. */
  lemma MergedClassesSplit(defaultFieldClasses: Option<seq<string>>, instance: Option<InputComponent>)
    requires ClassAttribute(instance).Some?
    ensures var c := ClassAttribute(instance).value;
            Split(GetDefaultFieldClasses(defaultFieldClasses, instance), ' ') ==
            Split(c, ' ') + Split(JoinedDefaults(defaultFieldClasses), ' ')
    ensures defaultFieldClasses.Some? && |defaultFieldClasses.value| >= 1 && FreeOf(defaultFieldClasses.value, ' ') ==>
              Split(GetDefaultFieldClasses(defaultFieldClasses, instance), ' ') ==
              Split(ClassAttribute(instance).value, ' ') + defaultFieldClasses.value
  {
    var c := ClassAttribute(instance).value;
    var output := JoinedDefaults(defaultFieldClasses);
    assert GetDefaultFieldClasses(defaultFieldClasses, instance) == c + [' '] + output;
    SplitAround(c, output, ' ');
  }

  /** Without a class attribute the result splits into the defaults. */
  lemma DefaultClassesSplit(classes: seq<string>, instance: Option<InputComponent>)
    requires |classes| >= 1 && FreeOf(classes, ' ')
    requires ClassAttribute(instance).None?
    ensures Split(GetDefaultFieldClasses(Some(classes), instance), ' ') == classes
  {
    SplitJoin(classes, ' ');
  }

  // ---------------------------------------------------------------------
  // Scenarios

  const Checkbox := TypeRef("BootstrapInputCheckboxComponent", false, 0, [], [], None, {})
  const Bool := TypeRef("Boolean", false, 0, [], [], None, {})
  const Dictionary := TypeRef("InputSelectWithOptions`1", true, 1, [], [], None, {})
  const FoodKind := TypeRef("FoodKind", false, 0, [], [], None, {})

  /** A non-generic checkbox registered under "checkbox", bound to `true`. */
  lemma CheckboxScenario(changed: EventCallback, expression: FieldExpression, context: EditContext,
                         renderChildren: ChildRenderer<bool>)
    ensures var s := LoaderState(map["checkbox" := Checkbox], Bool, true, changed, expression, "checkbox",
                                 Some(context), renderChildren);
            RenderPass(s) == Pass([Open(0, Checkbox),
                                   Attribute(1, ValueAttribute, BoundValue(true)),
                                   Attribute(2, ValueChangedAttribute, ChangeCallback(changed)),
                                   Attribute(4, ValueExpressionAttribute, BoundExpression(expression)),
                                   Close], Completed)
  {
    assert !TypeImplementsInterface(Checkbox, IRenderChildren);
  }

  /** An open generic control under "dict" is emitted closed over the enum. */
  lemma DictionaryScenario<V>(value: V, changed: EventCallback, expression: FieldExpression, context: EditContext,
                              renderChildren: ChildRenderer<V>)
    ensures var s := LoaderState(map["dict" := Dictionary], FoodKind, value, changed, expression, "dict",
                                 Some(context), renderChildren);
            RenderPass(s).frames[0] == Open(0, TypeRef("InputSelectWithOptions`1", false, 1, [FoodKind], [], None, {}))
  {
  }
}
