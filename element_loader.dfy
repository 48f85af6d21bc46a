/** `VxFormElementLoader<TValue>`: resolves the control registered under a
    form-element key, closes it over the value type when it is an open
    generic definition, and emits it into the render tree with the three
    binding attributes and, for a control that renders its own children,
    a reflective call to its static `RenderChildren` method. */
module ElementLoader {
  import opened Wrappers
  import opened Reflection
  import opened Strings
  import opened RenderTree

  /** The capability markers, matched by simple name. */
  const IRenderAsFormElement := TypeRef("IRenderAsFormElement", false, 0, [], [], None, {})
  const IRenderChildren := TypeRef("IRenderChildren", false, 0, [], [], None, {})

  /** `nameof(IRenderChildren.RenderChildren)`. */
  const RenderChildrenMethod := "RenderChildren"

  /** `nameof(InputBase<TValue>.Value)` and its two companions. */
  const ValueAttribute := "Value"
  const ValueChangedAttribute := "ValueChanged"
  const ValueExpressionAttribute := "ValueExpression"

  /** The index handed to `RenderChildren`. */
  const ChildrenStartIndex := 6

  // ---------------------------------------------------------------------
  // Interface matching and base-chain walking

  /** `interfaces.Where(i => i.Name == name).FirstOrDefault()`. */
  function FirstInterfaceNamed(interfaces: seq<TypeRef>, name: string): (found: Option<TypeRef>)
    ensures found.None? <==> forall j :: 0 <= j < |interfaces| ==> interfaces[j].name != name
    ensures found.Some? ==> exists j :: 0 <= j < |interfaces| && interfaces[j] == found.value && found.value.name == name &&
                                        forall i :: 0 <= i < j ==> interfaces[i].name != name
  {
    if interfaces == [] then None
    else if interfaces[0].name == name then Some(interfaces[0])
    else
      var rest := FirstInterfaceNamed(interfaces[1..], name);
      if rest.Some? then
        ghost var j :| 0 <= j < |interfaces[1..]| && interfaces[1..][j] == rest.value && rest.value.name == name &&
                       forall i :: 0 <= i < j ==> interfaces[1..][i].name != name;
        assert interfaces[j + 1] == rest.value;
        rest
      else rest
  }

  /** `TypeImplementsInterface`: some interface of `t` has the simple name of
      `typeToImplement`; identity is not compared. */
  function TypeImplementsInterface(t: TypeRef, typeToImplement: TypeRef): (r: bool)
    ensures r <==> exists j :: 0 <= j < |t.interfaces| && t.interfaces[j].name == typeToImplement.name
  {
    FirstInterfaceNamed(t.interfaces, typeToImplement.name).Some?
  }

  /** `IsTypeDerivedFromGenericType`: false for `object` and for null, true
      for a generic type with that definition, otherwise asked of the base
      type. */
  function IsTypeDerivedFromGenericType(typeToCheck: Option<TypeRef>, genericType: TypeRef): (r: bool)
    ensures typeToCheck == Some(ObjectType) ==> !r
    ensures typeToCheck == None ==> !r
    ensures (typeToCheck.Some? && typeToCheck.value.IsGenericType() &&
             GenericTypeDefinition(typeToCheck.value) == genericType) ==> r
    decreases typeToCheck
  {
    if typeToCheck == Some(ObjectType) then false
    else match typeToCheck
      case None => false
      case Some(t) =>
        if t.IsGenericType() && GenericTypeDefinition(t) == genericType then true
        else IsTypeDerivedFromGenericType(t.baseType, genericType)
  }

  // ---------------------------------------------------------------------
  // Default field classes

  /** An attribute value as `Convert.ToString` and string interpolation see
      it: null, or an object with its string form. */
  datatype AttributeObject = NullObject | Object(text: string)

  /** `Convert.ToString(o)`: the empty string for null. */
  function StringForm(o: AttributeObject): (text: string)
    ensures o.NullObject? ==> text == ""
    ensures o.Object? ==> text == o.text
  {
    match o
    case NullObject => ""
    case Object(text) => text
  }

  /** The part of an `InputBase<T>` instance the class merge reads. */
  datatype InputComponent = InputComponent(additionalAttributes: Option<map<string, AttributeObject>>)

  /** `DefaultFieldClasses` joined with single spaces, or "" for a null list. */
  function JoinedDefaults(defaultFieldClasses: Option<seq<string>>): (output: string)
    ensures defaultFieldClasses.None? ==> output == ""
    ensures defaultFieldClasses.Some? && |defaultFieldClasses.value| >= 1 && FreeOf(defaultFieldClasses.value, ' ') ==>
              Split(output, ' ') == defaultFieldClasses.value
  {
    match defaultFieldClasses
    case None => ""
    case Some(classes) =>
      if |classes| >= 1 && FreeOf(classes, ' ') then
        SplitJoin(classes, ' ');
        Join(" ", classes)
      else Join(" ", classes)
  }

  /** The instance's non-empty `class` attribute, as a string, if it has one. */
  function ClassAttribute(instance: Option<InputComponent>): (r: Option<string>)
    ensures instance.None? || instance.value.additionalAttributes.None? ==> r.None?
    ensures r.Some? ==> r.value != ""
  {
    if instance.Some? && instance.value.additionalAttributes.Some? &&
       "class" in instance.value.additionalAttributes.value &&
       StringForm(instance.value.additionalAttributes.value["class"]) != ""
    then Some(StringForm(instance.value.additionalAttributes.value["class"]))
    else None
  }

  /** `GetDefaultFieldClasses`: the joined defaults, preceded by the
      instance's own non-empty `class` attribute and a space when it has one. */
  function GetDefaultFieldClasses(defaultFieldClasses: Option<seq<string>>, instance: Option<InputComponent>): (r: string)
    ensures var output := JoinedDefaults(defaultFieldClasses);
            |r| >= |output| && r[|r| - |output|..] == output
    ensures r == JoinedDefaults(defaultFieldClasses) <==> ClassAttribute(instance).None?
    ensures instance.None? ==> r == JoinedDefaults(defaultFieldClasses)
    ensures ClassAttribute(instance).Some? ==>
              var c := ClassAttribute(instance).value;
              |r| == |c| + 1 + |JoinedDefaults(defaultFieldClasses)| && r[..|c| + 1] == c + " "
  {
    var output := JoinedDefaults(defaultFieldClasses);
    if instance.None? then output
    else
      var attributes := instance.value.additionalAttributes;
      if attributes.Some? && "class" in attributes.value && StringForm(attributes.value["class"]) != "" then
        var merged := StringForm(attributes.value["class"]) + " " + output;
        assert merged[|merged| - |output|..] == output;
        merged
      else output
  }

  // ---------------------------------------------------------------------
  // One render pass, as values

  /** The runtime's exceptions on the loader's path. */
  datatype Failure =
    | GenericArityMismatch(mismatch: ArityMismatch)  // ArgumentException from MakeGenericType
    | MissingEditContext                             // NullReferenceException reading CascadedEditContext.Model
    | MissingRenderChildren(target: TypeRef)         // NullReferenceException invoking a null MethodInfo

  datatype Outcome = Completed | Faulted(failure: Failure)

  /** What one call appends to the builder's log, and how it ends. Entries
      appended before an exception stay in the log. */
  datatype Pass<V> = Pass(frames: seq<Frame<V>>, outcome: Outcome)

  /** The cascaded `EditContext`; only its `Model` is read. */
  datatype EditContext = EditContext(model: ModelRef)

  /** What a control type's static `RenderChildren` method appends to the
      builder, given the type it is declared on, the start index and the
      data context. That method is the control's code, not the loader's. */
  type ChildRenderer<V> = (TypeRef, int, ModelRef) -> seq<Frame<V>>

  /** The loader's parameters during a pass. `valueType` is `TValue`;
      `renderChildren` stands for the controls' `RenderChildren` methods. */
  datatype LoaderState<V> = LoaderState(
    repo: map<string, TypeRef>,
    valueType: TypeRef,
    value: V,
    valueChanged: EventCallback,
    valueExpression: FieldExpression,
    formElementType: string,
    cascadedEditContext: Option<EditContext>,
    renderChildren: ChildRenderer<V>)

  /** Lookup and specialisation: nothing for an unknown key; an open generic
      definition closed over `TValue` alone; any other type unchanged. */
  function ResolveElementType(repo: map<string, TypeRef>, key: string, valueType: TypeRef): (r: Option<Result<TypeRef, ArityMismatch>>)
    ensures r.None? <==> key !in repo
    ensures r.Some? && !repo[key].isGenericDefinition ==> r.value == Ok(repo[key])
    ensures r.Some? && repo[key].isGenericDefinition ==>
              (r.value.Ok? <==> repo[key].parameterCount == 1) &&
              (r.value.Err? ==> r.value.error == ArityMismatch(repo[key], repo[key].parameterCount, 1))
    ensures r.Some? && r.value.Ok? && repo[key].isGenericDefinition ==>
              var t := r.value.value;
              !t.isGenericDefinition && t.args == [valueType] && t.name == repo[key].name &&
              (repo[key].WellFormed() ==> t.IsGenericType() && GenericTypeDefinition(t) == repo[key])
  {
    if key !in repo then None
    else
      var componentType := repo[key];
      if componentType.isGenericDefinition then
        var closed := MakeGenericType(componentType, [valueType]);
        Some(closed)
      else Some(Ok(componentType))
  }

  /** The arguments the reflective call passes: the builder, the index, the
      data context and null. */
  function RenderChildrenArguments(indexBuilder: int, dataContext: ModelRef): (args: seq<InvokeArgument>)
    ensures |args| == 4 && args[0] == TheBuilder && args[3] == NullArgument
    ensures args[1] == IndexArgument(indexBuilder) && args[2] == DataContextArgument(dataContext)
  {
    [TheBuilder, IndexArgument(indexBuilder), DataContextArgument(dataContext), NullArgument]
  }

  /** `CheckForInterfaceActions`, as values: nothing for a type without an
      `IRenderChildren` interface, a fault when no method is found, and
      otherwise the call followed by what the method appends. */
  function InterfaceActions<V>(renderChildren: ChildRenderer<V>, dataContext: ModelRef, indexBuilder: int,
                               elementType: TypeRef): (r: Pass<V>)
    ensures !TypeImplementsInterface(elementType, IRenderChildren) ==> r == Pass([], Completed)
    ensures r.outcome.Faulted? <==>
              TypeImplementsInterface(elementType, IRenderChildren) &&
              FindPublicStaticMethod(elementType, RenderChildrenMethod).None?
    ensures r.outcome.Faulted? ==> r == Pass([], Faulted(MissingRenderChildren(elementType)))
    ensures r.frames != [] <==>
              TypeImplementsInterface(elementType, IRenderChildren) &&
              FindPublicStaticMethod(elementType, RenderChildrenMethod).Some?
    ensures r.frames != [] ==>
              var declaring := FindPublicStaticMethod(elementType, RenderChildrenMethod).value;
              r.frames[0] == ChildRendering(elementType, declaring, RenderChildrenArguments(indexBuilder, dataContext)) &&
              r.frames[1..] == renderChildren(declaring, indexBuilder, dataContext)
  {
    if !TypeImplementsInterface(elementType, IRenderChildren) then Pass([], Completed)
    else match FindPublicStaticMethod(elementType, RenderChildrenMethod)
      case None => Pass([], Faulted(MissingRenderChildren(elementType)))
      case Some(declaring) =>
        Pass([ChildRendering(elementType, declaring, RenderChildrenArguments(indexBuilder, dataContext))] +
             renderChildren(declaring, indexBuilder, dataContext), Completed)
  }

  /** The opening entry and the three bindings, with the loader's values. */
  function ComponentHead<V>(s: LoaderState<V>, elementType: TypeRef): (head: seq<Frame<V>>)
    ensures |head| == 4 && head[0] == Open(0, elementType)
    ensures head[1] == Attribute(1, ValueAttribute, BoundValue(s.value))
    ensures head[2] == Attribute(2, ValueChangedAttribute, ChangeCallback(s.valueChanged))
    ensures head[3] == Attribute(4, ValueExpressionAttribute, BoundExpression(s.valueExpression))
  {
    [Open(0, elementType),
     Attribute(1, ValueAttribute, BoundValue(s.value)),
     Attribute(2, ValueChangedAttribute, ChangeCallback(s.valueChanged)),
     Attribute(4, ValueExpressionAttribute, BoundExpression(s.valueExpression))]
  }

  /** `CreateFormComponent`, as values. The data context handed on is read
      from the cascaded edit context, not taken from the caller. */
  function FormComponent<V>(s: LoaderState<V>, elementType: TypeRef): (r: Pass<V>)
    ensures |r.frames| >= 4 && r.frames[..4] == ComponentHead(s, elementType)
    ensures s.cascadedEditContext.None? ==> r == Pass(ComponentHead(s, elementType), Faulted(MissingEditContext))
    ensures r.outcome.Faulted? ==> r.frames == ComponentHead(s, elementType)
    ensures s.cascadedEditContext.Some? ==>
              r.outcome == InterfaceActions(s.renderChildren, s.cascadedEditContext.value.model, ChildrenStartIndex, elementType).outcome
    ensures r.outcome.Completed? ==>
              s.cascadedEditContext.Some? &&
              r.frames == ComponentHead(s, elementType) +
                          InterfaceActions(s.renderChildren, s.cascadedEditContext.value.model, ChildrenStartIndex, elementType).frames +
                          [Close]
  {
    var head := ComponentHead(s, elementType);
    match s.cascadedEditContext
    case None => Pass(head, Faulted(MissingEditContext))
    case Some(context) =>
      var actions := InterfaceActions(s.renderChildren, context.model, ChildrenStartIndex, elementType);
      if actions.outcome.Faulted? then Pass(head + actions.frames, actions.outcome)
      else Pass(head + actions.frames + [Close], Completed)
  }

  /** `CreateComponent`, as values. */
  function RenderPass<V>(s: LoaderState<V>): (r: Pass<V>)
    ensures s.formElementType !in s.repo ==> r == Pass([], Completed)
    ensures r.frames != [] ==>
              ResolveElementType(s.repo, s.formElementType, s.valueType).Some? &&
              ResolveElementType(s.repo, s.formElementType, s.valueType).value.Ok? &&
              r.frames[0] == Open(0, ResolveElementType(s.repo, s.formElementType, s.valueType).value.value)
    ensures r.frames == [] && r.outcome.Faulted? ==> r.outcome.failure.GenericArityMismatch? || r.outcome == Faulted(MissingEditContext)
    ensures r.outcome.Completed? && r.frames != [] ==> r.frames[|r.frames| - 1] == Close
  {
    match ResolveElementType(s.repo, s.formElementType, s.valueType)
    case None => Pass([], Completed)
    case Some(Err(mismatch)) => Pass([], Faulted(GenericArityMismatch(mismatch)))
    case Some(Ok(elementType)) =>
      if s.cascadedEditContext.None? then Pass([], Faulted(MissingEditContext))
      else FormComponent(s, elementType)
  }

  // ---------------------------------------------------------------------
  // The component

  /** The loader component. `repo` is the repository `OnInitialized` fetches;
      `valueType` is `TValue`; `renderChildren` stands for the controls'
      static `RenderChildren` methods. `DefaultFieldClasses` is passed to
      `GetDefaultFieldClasses` directly, since no pass reads it. */
  class VxFormElementLoader<V> {
    var repo: map<string, TypeRef>
    const valueType: TypeRef
    var value: V
    var valueChanged: EventCallback
    var valueExpression: FieldExpression
    var formElementType: string
    var cascadedEditContext: Option<EditContext>
    const renderChildren: ChildRenderer<V>

    constructor (repo: map<string, TypeRef>, valueType: TypeRef, value: V, valueChanged: EventCallback,
                 valueExpression: FieldExpression, formElementType: string,
                 cascadedEditContext: Option<EditContext>, renderChildren: ChildRenderer<V>)
      ensures this.repo == repo && this.valueType == valueType && this.value == value
      ensures this.valueChanged == valueChanged && this.valueExpression == valueExpression
      ensures this.formElementType == formElementType && this.cascadedEditContext == cascadedEditContext
      ensures this.renderChildren == renderChildren
    {
      this.repo := repo;
      this.valueType := valueType;
      this.value := value;
      this.valueChanged := valueChanged;
      this.valueExpression := valueExpression;
      this.formElementType := formElementType;
      this.cascadedEditContext := cascadedEditContext;
      this.renderChildren := renderChildren;
    }

    function State(): LoaderState<V>
      reads this
    {
      LoaderState(repo, valueType, value, valueChanged, valueExpression, formElementType, cascadedEditContext, renderChildren)
    }

    /** `CreateComponent(builder)`. */
    method CreateComponent(builder: RenderTreeBuilder<V>) returns (outcome: Outcome)
      modifies builder
      ensures builder.frames == old(builder.frames) + RenderPass(State()).frames
      ensures outcome == RenderPass(State()).outcome
    {
      if formElementType !in repo {
        return Completed;
      }
      var elementType := repo[formElementType];
      if elementType.isGenericDefinition {
        var closed := MakeGenericType(elementType, [valueType]);
        if closed.Err? {
          return Faulted(GenericArityMismatch(closed.error));
        }
        elementType := closed.value;
      }
      if cascadedEditContext.None? {
        return Faulted(MissingEditContext);
      }
      outcome := CreateFormComponent(cascadedEditContext.value.model, builder, elementType);
    }

    /** `CreateFormComponent(target, dataContext, builder, elementType)`; the
        unused `target` is not modelled, and `dataContext` is not read. */
    method CreateFormComponent(dataContext: ModelRef, builder: RenderTreeBuilder<V>, elementType: TypeRef)
      returns (outcome: Outcome)
      modifies builder
      ensures builder.frames == old(builder.frames) + FormComponent(State(), elementType).frames
      ensures outcome == FormComponent(State(), elementType).outcome
    {
      builder.OpenComponent(0, elementType);
      builder.AddAttribute(1, ValueAttribute, BoundValue(value));
      builder.AddAttribute(2, ValueChangedAttribute, ChangeCallback(valueChanged));
      builder.AddAttribute(4, ValueExpressionAttribute, BoundExpression(valueExpression));
      if cascadedEditContext.None? {
        return Faulted(MissingEditContext);
      }
      outcome := CheckForInterfaceActions(cascadedEditContext.value.model, builder, ChildrenStartIndex, elementType);
      if outcome.Faulted? {
        return;
      }
      builder.CloseComponent();
    }

    /** `CheckForInterfaceActions(target, dataContext, builder, indexBuilder,
        elementType)`; the unused `target` is not modelled. */
    method CheckForInterfaceActions(dataContext: ModelRef, builder: RenderTreeBuilder<V>, indexBuilder: int, elementType: TypeRef)
      returns (outcome: Outcome)
      modifies builder
      ensures builder.frames == old(builder.frames) + InterfaceActions(renderChildren, dataContext, indexBuilder, elementType).frames
      ensures outcome == InterfaceActions(renderChildren, dataContext, indexBuilder, elementType).outcome
    {
      if TypeImplementsInterface(elementType, IRenderAsFormElement) {
        // the class-list update at line 144 is commented out: nothing happens
      }
      outcome := Completed;
      if TypeImplementsInterface(elementType, IRenderChildren) {
        var found := FindPublicStaticMethod(elementType, RenderChildrenMethod);
        if found.None? {
          return Faulted(MissingRenderChildren(elementType));
        }
        builder.HandToRenderChildren(elementType, found.value, RenderChildrenArguments(indexBuilder, dataContext),
                                     renderChildren(found.value, indexBuilder, dataContext));
      }
    }
  }
}
