# VxFormElementLoader in Dafny

This project models the dynamic element loader of the Blazor form generator:
`VxFormElementLoader<TValue>`. A form places one loader per field. The loader
looks its `FormElementType` key up in the component repository. When the
registered control type is an open generic definition, the loader closes it
over `TValue`. It then emits the control into the render tree with the
`Value`, `ValueChanged` and `ValueExpression` bindings. A control that has an
interface named `IRenderChildren` also gets its public static
`RenderChildren` method called reflectively.

## Layout

- `wrappers.dfy` (`Wrappers`): `Option` (a nullable reference) and `Result`.
- `reflection.dfy` (`Reflection`): .NET types as the datatype `TypeRef`. A type
  has a simple name, an open-definition flag, a generic parameter count and
  arguments, the interfaces `GetInterfaces` reports, a finite base chain, and
  the names of the public static methods it declares. The module also holds
  `MakeGenericType`, `GetGenericTypeDefinition` and
  `GetMethod(…, Public | FlattenHierarchy | Static)`.
- `strings.dfy` (`Strings`): `string.Join` and a split that inverts it. The
  split appears only in contracts and lemmas.
- `render_tree.dfy` (`RenderTree`): `RenderTreeBuilder`, a class whose only
  state is an append-only log of frames. Each of `OpenComponent`,
  `AddAttribute` and `CloseComponent` appends one frame. Handing the builder
  to `RenderChildren` appends a record of the call, followed by the frames
  that method issues. The module defines counting and "balanced" for logs.
- `element_loader.dfy` (`ElementLoader`): the loader's three pure helpers.
  It also holds the value-level definition of one render pass (`RenderPass`,
  `FormComponent`, `InterfaceActions`) and the class `VxFormElementLoader`.
  Each control's static `RenderChildren` method is foreign code. It enters
  as an input, `renderChildren`, giving the frames the method appends for a
  declaring type, start index and data context.
  The class methods `CreateComponent`, `CreateFormComponent` and
  `CheckForInterfaceActions` issue the builder commands one by one. Each is
  proved to append exactly the frames of its value-level counterpart and to
  end with the same outcome.
- `loader_properties.dfy` (`LoaderProperties`): what a pass promises, proved
  about `RenderPass`, plus lemmas about the helpers. Two scenario lemmas
  cover a plain checkbox and an open generic control.

Exceptions are the `Outcome` value `Faulted(failure)`. Frames appended before
the exception stay in the log, as they do in the builder:

- `GenericArityMismatch`: the `ArgumentException` from `MakeGenericType`.
- `MissingEditContext`: the `NullReferenceException` from reading
  `CascadedEditContext.Model` when there is no cascaded edit context.
- `MissingRenderChildren`: the `NullReferenceException` from calling `Invoke`
  on the null result of `GetMethod`.

Behaviour of the code worth noting:

- The `IRenderAsFormElement` branch is empty, so a control's own classes are
  never merged.
- A type that claims `IRenderChildren` but has no such method makes
  `GetMethod` return null. The following `Invoke` then throws a
  `NullReferenceException`.
- `CreateFormComponent` ignores its `dataContext` argument. At line 126 it
  reads `CascadedEditContext.Model` again, after the three bindings are
  emitted. The model keeps that order.

## Model

| member | source | states |
|---|---|---|
| `Reflection.MakeGenericType` | VxFormGenerator/VxFormElementLoader.cs:84-88 | closing succeeds exactly when the argument count equals the definition's parameter count; the result is no longer a definition, carries exactly the given arguments, keeps name and interfaces, and, for a well-formed definition, is a well-formed generic type; a wrong count gives the arity error |
| `Reflection.GenericTypeDefinition` | VxFormGenerator/VxFormElementLoader.cs:192 | the definition of a generic type is an open definition without arguments and with the same name, interfaces and base type |
| `Reflection.DefinitionOfConstructed` | VxFormGenerator/VxFormElementLoader.cs:87 | closing a well-formed definition over the right number of arguments succeeds, and asking the result for its definition gives back the original definition |
| `Reflection.FindPublicStaticMethod` | VxFormGenerator/VxFormElementLoader.cs:150 | a found method is declared on the first type of the base chain that declares a public static method of that name; nothing is found exactly when no type of the chain declares one |
| `Strings.Join` | VxFormGenerator/VxFormElementLoader.cs:165 | no parts give ""; one part gives that part; the result starts with the first part; `SplitJoin` and `JoinSplit` prove the split is its inverse |
| `Strings.SplitJoin` | VxFormGenerator/VxFormElementLoader.cs:165 | joining one or more space-free class names with a space and splitting at spaces gives back the same list |
| `Strings.JoinSplit` | VxFormGenerator/VxFormElementLoader.cs:165 | splitting any string at a character and joining with that character gives back the string |
| `ElementLoader.FirstInterfaceNamed` | VxFormGenerator/VxFormElementLoader.cs:203-210 | nothing is found exactly when no interface has that name; a found interface has that name and no earlier interface has it (the first match) |
| `ElementLoader.TypeImplementsInterface` | VxFormGenerator/VxFormElementLoader.cs:201-213 | true exactly when some interface of the type has the asked interface's simple name |
| `ElementLoader.IsTypeDerivedFromGenericType` | VxFormGenerator/VxFormElementLoader.cs:182-200 | false for `object` and for null; true for a generic type whose definition is the given one |
| `ElementLoader.JoinedDefaults` | VxFormGenerator/VxFormElementLoader.cs:165 | a null list gives ""; a non-empty list of space-free classes is recovered by splitting the result at spaces |
| `ElementLoader.StringForm` | VxFormGenerator/VxFormElementLoader.cs:174 | `Convert.ToString` of an attribute value: "" for null, and the object's string form otherwise; `ClassAttribute` states how it is used |
| `ElementLoader.ClassAttribute` | VxFormGenerator/VxFormElementLoader.cs:170-174 | a null instance or a null attribute dictionary gives no class; a class it gives is never empty; `GetDefaultFieldClasses` and `MergedClassesSplit` state how it enters the merged string |
| `ElementLoader.GetDefaultFieldClasses` | VxFormGenerator/VxFormElementLoader.cs:162-180 | the joined defaults ("" for a null list) are always a suffix of the result; the result differs from them exactly when the instance has a non-empty `class` attribute, and is then that class, one space and the joined defaults, with nothing else; a null instance gives the joined defaults |
| `ElementLoader.ResolveElementType` | VxFormGenerator/VxFormElementLoader.cs:74-88 | nothing resolves exactly when the key is not in the repository; a non-generic registered type is used unchanged; an open definition succeeds exactly when it has one parameter, and is then closed over `TValue` alone, with, for a well-formed definition, the registered definition as its definition |
| `ElementLoader.RenderChildrenArguments` | VxFormGenerator/VxFormElementLoader.cs:152 | the four invoke arguments, in order: the builder, the index, the data context and null; `InterfaceActions` and `RenderChildrenArgumentsForwarded` state where they appear |
| `ElementLoader.ComponentHead` | VxFormGenerator/VxFormElementLoader.cs:111-121 | four entries: the open of the element type at sequence 0, then `Value` at 1, `ValueChanged` at 2 and `ValueExpression` at 4 with the loader's values; `HeadCounts` counts its kinds and `FormComponent` puts it first |
| `ElementLoader.InterfaceActions` | VxFormGenerator/VxFormElementLoader.cs:137-154 | a type without an `IRenderChildren` interface gets nothing and completes; the actions fault exactly when the interface matches and no method is found, and then emit nothing; otherwise they emit the call record with the declaring type and the four arguments, followed by exactly what the method appends |
| `ElementLoader.FormComponent` | VxFormGenerator/VxFormElementLoader.cs:106-135 | always starts with the open and the three bindings; without an edit context it faults right after them; with one, its outcome is that of the interface actions, so a missing `RenderChildren` is passed on; a fault emits nothing more; a completion is the head, the interface actions of the edit context's model at index 6, and the close |
| `ElementLoader.RenderPass` | VxFormGenerator/VxFormElementLoader.cs:71-94 | an unknown key gives an empty, completed pass; a non-empty pass opens the resolved type first; an empty faulted pass failed on the arity or the edit context; a completed non-empty pass ends with the close |
| `ElementLoader.VxFormElementLoader.CreateComponent` | VxFormGenerator/VxFormElementLoader.cs:71-94 | the builder's log grows by exactly the frames of `RenderPass` for the loader's parameters, and the outcome is that pass's outcome |
| `ElementLoader.VxFormElementLoader.CreateFormComponent` | VxFormGenerator/VxFormElementLoader.cs:106-135 | the log grows by exactly the opening frame, the three bindings, the interface actions and the close, stopping where an exception is raised |
| `ElementLoader.VxFormElementLoader.CheckForInterfaceActions` | VxFormGenerator/VxFormElementLoader.cs:137-154 | the log grows by one `RenderChildren` hand-off exactly when the type has an `IRenderChildren` interface and a method is found; a missing method is a fault |
| `RenderTree.RenderTreeBuilder.OpenComponent` | VxFormGenerator/VxFormElementLoader.cs:111 | appends one opening frame with the sequence number and component type |
| `RenderTree.RenderTreeBuilder.AddAttribute` | VxFormGenerator/VxFormElementLoader.cs:115-121 | appends one attribute frame with the sequence number, name and value |
| `RenderTree.RenderTreeBuilder.CloseComponent` | VxFormGenerator/VxFormElementLoader.cs:128 | appends one closing frame |
| `RenderTree.RenderTreeBuilder.HandToRenderChildren` | VxFormGenerator/VxFormElementLoader.cs:152 | appends one record of the reflective `RenderChildren` call with its target, declaring type and arguments, then the frames the method issues |
| `LoaderProperties.UnknownKeyEmitsNothing` | VxFormGenerator/VxFormElementLoader.cs:74-77 | an unknown key emits no frame and completes without error |
| `LoaderProperties.EmittedComponentType` | VxFormGenerator/VxFormElementLoader.cs:81-111 | for a found key the first frame opens, at sequence 0, either the registered type itself or the registered one-parameter definition closed over exactly `TValue` |
| `LoaderProperties.WrongArityFails` | VxFormGenerator/VxFormElementLoader.cs:84-88 | an open definition with other than one parameter fails the pass with the arity error before anything is emitted |
| `LoaderProperties.PassShape` | VxFormGenerator/VxFormElementLoader.cs:111-128 | a non-empty pass starts with the open at 0 of the resolved type and `Value` at 1, `ValueChanged` at 2 and `ValueExpression` at 4; a completed one then holds the `RenderChildren` call and exactly the frames it appends, if it is called, and ends with the close; a faulted one stops before any close |
| `LoaderProperties.PassBalanced` | VxFormGenerator/VxFormElementLoader.cs:111-128 | when the frames `RenderChildren` appends are balanced, a completed pass is balanced; a faulted pass leaves open nothing or exactly the one component it opened |
| `LoaderProperties.BuilderStaysBalanced` | VxFormGenerator/VxFormElementLoader.cs:111-128 | a completed pass on a balanced builder log leaves it balanced, when the frames `RenderChildren` appends are balanced |
| `LoaderProperties.BindingsTogether` | VxFormGenerator/VxFormElementLoader.cs:111-121 | not counting the frames `RenderChildren` appends, a pass holds one open and one of each of the three bindings when it emits anything, and none otherwise: never a subset |
| `LoaderProperties.BindingsForwarded` | VxFormGenerator/VxFormElementLoader.cs:115-121 | the three binding frames carry the loader's `Value`, `ValueChanged` and `ValueExpression` unmodified |
| `LoaderProperties.ChildRenderingOnce` | VxFormGenerator/VxFormElementLoader.cs:148-153 | not counting the frames `RenderChildren` appends, the pass records the call once exactly when the resolved type has an `IRenderChildren` interface and a method is found, and never otherwise |
| `LoaderProperties.RenderChildrenArgumentsForwarded` | VxFormGenerator/VxFormElementLoader.cs:148-152 | the call receives the builder, start index 6 (from line 126), the edit context's model and null, names the declaring type, and is the frame right after the bindings |
| `LoaderProperties.MissingRenderChildrenFails` | VxFormGenerator/VxFormElementLoader.cs:148-152 | claiming `IRenderChildren` without the method faults the pass after the bindings, with the component left open: it is not skipped |
| `LoaderProperties.RenderAsFormElementHasNoEffect` | VxFormGenerator/VxFormElementLoader.cs:141-145 | a type matching only `IRenderAsFormElement` gets no interface action and completes |
| `LoaderProperties.NameCollisionMatches` | VxFormGenerator/VxFormElementLoader.cs:201-213 | an unrelated interface that shares the simple name counts as implementing the asked one |
| `LoaderProperties.SameNameSameAnswer` | VxFormGenerator/VxFormElementLoader.cs:205-208 | two interfaces with the same simple name always get the same answer |
| `LoaderProperties.DerivedIffGenericAncestor` | VxFormGenerator/VxFormElementLoader.cs:182-200 | the recursive walk is true exactly when some type on the finite base chain is generic with the given definition |
| `LoaderProperties.MergedClassesSplit` | VxFormGenerator/VxFormElementLoader.cs:165-177 | for any list and any class attribute, the merged string splits into the pieces of the class followed by the pieces of the joined defaults; for a non-empty list of space-free names, those pieces are the list itself |
| `LoaderProperties.DefaultClassesSplit` | VxFormGenerator/VxFormElementLoader.cs:165-179 | without a class attribute, the result splits into exactly the default classes |
| `LoaderProperties.CheckboxScenario` | VxFormGenerator/VxFormElementLoader.cs:71-128 | a non-generic checkbox under "checkbox" bound to `true` emits exactly open, the three bindings with `true`, and close |
| `LoaderProperties.DictionaryScenario` | VxFormGenerator/VxFormElementLoader.cs:84-88 | an open one-parameter control under "dict" is emitted closed over the enum value type |

## Left out

- `OnInitialized` (lines 53-57): the repository is a constructor argument and
  not fetched from `ScopedServices`. A null repository, which makes line 74
  throw, is not modelled.
- `BuildRenderTree` (lines 60-63) only calls `CreateComponent`, so it is not
  modelled separately.
- The repository's `GetComponent` is not part of this model. It is read as a
  lookup in a `map<string, TypeRef>`, and a null `FormElementType` is not
  modelled.
- What `RenderChildren` appends is an input of the model, not computed.
  Exceptions thrown inside it are not modelled, and neither is any
  dependence on the builder's earlier frames.
- Reflection details:
  - `MakeGenericType` constraint checking is not modelled; only the arity is checked.
  - `GetMethod`'s ambiguous-match error is not modelled.
  - `Invoke`'s signature mismatch and exceptions from the invoked method are not modelled.
  - As with these binding flags, only public static methods are found; instance and non-public methods are not modelled.
  - A constructed generic type keeps its definition's interfaces and base type, with nothing substituted.
- `ElementLoader.IsTypeDerivedFromGenericType`: a null `genericType` is not
  modelled, because the parameter always holds a type. The method is private
  and has no caller.
- `ElementLoader.GetDefaultFieldClasses`:
  - Null elements of `DefaultFieldClasses` are not modelled (`string.Join` turns them into empty strings).
  - The culture-dependent `ToString` of the class attribute is reduced to one string form.
  - Its only call site (line 124) is commented out, so no pass uses it.
- The `target` argument of `CreateFormComponent` and `CheckForInterfaceActions`
  is never read, so it is dropped.
- `TValue` values and the callback and expression objects are opaque. The
  framework's binding, validation and rendering machinery is not modelled.
- Commented-out code is not modelled, because it never runs:
  - the activation at lines 90-91;
  - the class attribute at line 124;
  - the class list update at line 144;
  - the validation message at lines 130-134.
- `BootstrapInputCheckboxComponent.TryParseValueFromString` (always throws)
  and the `BootstrapFormElementComponent` constructor (a constant class list)
  are not modelled. Both only configure framework base classes.
- `TestModel` and `FeedingSession` are not modelled. They are annotated data
  records without behaviour.
