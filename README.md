# Point-cloud model discovery and matrix conversion (Unity VDK integration)

This project models the two static helpers of `UDUtilities` in the Unity
integration of the Vault SDK samples, and proves what they guarantee.

- `GetUDMatrix` (module `UDMatrix`, `matrix.dfy`) turns a Unity `Matrix4x4`
  into the flat 16-value array the point-cloud SDK expects. The array holds
  the matrix column by column: position `4*c + r` holds the element at row
  `r`, column `c`. The element type is a type parameter, because the
  conversion only moves values. The model proves four things:
  - the layout has 16 entries and its index map is a bijection on 0..15;
  - a matching read-back (`FromUDMatrix`) recovers the matrix, and the two
    conversions are inverse in both directions;
  - every element appears exactly once (a permutation of the elements);
  - the layout is the row-by-row reading of the transpose.
- `getUDSInstances` (module `UDInstances`, `instances.dfy`) walks the
  models tagged in the scene. For each model it:
  - calls `LoadModel` if the model is not loaded;
  - if the model is loaded afterwards, writes its handle and world matrix
    into the next free slot of an array sized for all models, and advances
    the `count` cursor.

  Finally it keeps only the slots whose handle is not `IntPtr.Zero`. The
  model keeps the source's form:
  - `UDSModel` is a class whose `isLoaded` flag `LoadModel` updates;
  - the buffer is an `array`, filled through the cursor;
  - the final filter is the function `WithHandle`.

  The method is proved against a reference function, `Instances`: the
  instances of the models that are loaded after the load attempt and have
  a non-zero handle, in scene order. Lemmas about `Instances` give:
  - the result in terms of the qualifying positions (order kept);
  - its length, which equals the number of qualifying models;
  - that, with each load outcome fixed, a second discovery returns the
    same instances.

  A ghost counter on each model records the `LoadModel` calls. The method
  states that `LoadModel` is called on every model that was not loaded, and
  on no other model.

The SDK and Unity are outside the model:
- The tagged models are the `objects` parameter.
- The outcome of the SDK load is a per-model constant, `loadsSuccessfully`.
- Unity's matrix product and inverse are the function parameters `mul` and
  `inverse`. They are applied in the source's order:
  `((pivot * scale) * localToWorld) * inverse(pivot)`.

The layout is the transpose read row by row (`GetUDMatrixIsTransposedRows`).

Take two unloaded models where the first loads with a non-zero handle and
the second fails. Discovery returns the first's instance alone, in either
order (`OneLoadsOneFails`). A loaded model with a zero handle is dropped
too (UDUtilities.cs:65), so the lemma requires a non-zero handle.

## Model

| member | source | states |
|---|---|---|
| UDMatrix.GetUDMatrix | integrations/unity-csharp/Assets/VDK/UDUtilities.cs:14-40 | the result has exactly 16 entries; for every row r and column c in 0..3, entry 4*c + r is the element at (r, c) |
| UDMatrix.FromUDMatrix | integrations/unity-csharp/Assets/VDK/UDUtilities.cs:14-40 | reading a 16-entry layout back: element (r, c) is taken from entry 4*c + r |
| UDMatrix.SlotBijective | integrations/unity-csharp/Assets/VDK/UDUtilities.cs:16-37 | the index map (r, c) to 4*c + r is a bijection from 0..3 x 0..3 onto 0..15, with inverse (k % 4, k / 4) |
| UDMatrix.GetUDMatrixAt | integrations/unity-csharp/Assets/VDK/UDUtilities.cs:16-37 | every output entry k is a copy of the input element at row k % 4, column k / 4 |
| UDMatrix.FromGetUDMatrix | integrations/unity-csharp/Assets/VDK/UDUtilities.cs:14-40 | reading the layout back recovers the original matrix exactly |
| UDMatrix.GetFromUDMatrix | integrations/unity-csharp/Assets/VDK/UDUtilities.cs:14-40 | converting a read-back matrix gives the same 16 entries: the two conversions are inverse |
| UDMatrix.GetUDMatrixInjective | integrations/unity-csharp/Assets/VDK/UDUtilities.cs:14-40 | two matrices with the same layout are equal: no information is lost |
| UDMatrix.GetUDMatrixIsTransposedRows | integrations/unity-csharp/Assets/VDK/UDUtilities.cs:10-40 | the layout is the row-by-row reading of the transposed matrix |
| UDMatrix.GetUDMatrixCountAt | integrations/unity-csharp/Assets/VDK/UDUtilities.cs:16-37 | each value occurs as often in the layout as among the 16 matrix elements |
| UDMatrix.GetUDMatrixPermutes | integrations/unity-csharp/Assets/VDK/UDUtilities.cs:16-37 | the layout is a permutation of the matrix elements: each element appears exactly once and no value is made up |
| UDInstances.UDSModel.LoadModel | integrations/unity-csharp/Assets/VDK/UDUtilities.cs:55-56 | after a load the model is loaded exactly when the SDK load succeeds; the call is counted |
| UDInstances.AfterLoad | integrations/unity-csharp/Assets/VDK/UDUtilities.cs:55-56 | after "load if not loaded" a model is loaded exactly when it was loaded or its load succeeds; nothing else about it changes |
| UDInstances.AfterLoadAll | integrations/unity-csharp/Assets/VDK/UDUtilities.cs:50-64 | the states after one discovery: each model's state after its load attempt, in order |
| UDInstances.AfterLoadAllIdempotent | integrations/unity-csharp/Assets/VDK/UDUtilities.cs:55-56 | with each load outcome fixed, a second discovery leaves every model's state as the first one left it |
| UDInstances.InstanceOf | integrations/unity-csharp/Assets/VDK/UDUtilities.cs:59-61 | the instance written for a loaded model carries the model's handle and a 16-entry world matrix |
| UDInstances.InstanceOfWorldMatrix | integrations/unity-csharp/Assets/VDK/UDUtilities.cs:61 | reading the instance's world matrix back gives pivot * scale * localToWorld * inverse(pivot), multiplied left to right |
| UDInstances.Written | integrations/unity-csharp/Assets/VDK/UDUtilities.cs:48-64 | the loop fills at most one slot per model, so the filled prefix is no longer than the model list |
| UDInstances.WrittenSnoc | integrations/unity-csharp/Assets/VDK/UDUtilities.cs:57-62 | visiting one more model appends its instance when it is loaded after the attempt, and nothing otherwise |
| UDInstances.WithHandle | integrations/unity-csharp/Assets/VDK/UDUtilities.cs:65 | the filter returns no entry with the zero handle and never more entries than it is given |
| UDInstances.WithHandleAppend | integrations/unity-csharp/Assets/VDK/UDUtilities.cs:65 | the filter keeps order: filtering a concatenation is the concatenation of the filtered parts |
| UDInstances.WithHandleOfEmptySlots | integrations/unity-csharp/Assets/VDK/UDUtilities.cs:49-65 | default slots (zero handle, no matrix) are all dropped by the filter |
| UDInstances.WithHandleOfWritten | integrations/unity-csharp/Assets/VDK/UDUtilities.cs:52-65 | filtering the filled slots gives exactly the instances of the models that are loaded and have a handle |
| UDInstances.WithHandleOfFilled | integrations/unity-csharp/Assets/VDK/UDUtilities.cs:48-65 | a buffer whose first count slots are filled and whose other slots are default filters to the reference result |
| UDInstances.Instances | integrations/unity-csharp/Assets/VDK/UDUtilities.cs:45-66 | reference result: never an instance with the zero handle, and at most one instance per model |
| UDInstances.QualifyingIndicesSpec | integrations/unity-csharp/Assets/VDK/UDUtilities.cs:52-65 | the qualifying positions are listed each once, in increasing order, and a position is listed if and only if its model is loaded after the attempt and has a handle |
| UDInstances.InstancesAtQualifyingIndices | integrations/unity-csharp/Assets/VDK/UDUtilities.cs:48-65 | entry j of the result is the instance of the model at the j-th qualifying position, so instances keep the scene order of their models |
| UDInstances.InstancesCount | integrations/unity-csharp/Assets/VDK/UDUtilities.cs:49-65 | the result length equals the number of models that are loaded after the attempt and have a non-zero handle |
| UDInstances.InstancesAfterLoadAll | integrations/unity-csharp/Assets/VDK/UDUtilities.cs:55-65 | with each load outcome fixed, a discovery run on the states the first one left returns the same instances |
| UDInstances.OneLoadsOneFails | integrations/unity-csharp/Assets/VDK/UDUtilities.cs:55-65 | of a model that loads with a handle and a model whose load fails, only the first yields an instance, whichever comes first; when the failing model comes first the loop carries on past it |
| UDInstances.VisitModel | integrations/unity-csharp/Assets/VDK/UDUtilities.cs:52-63 | one pass of the loop: loads the model exactly when it is not loaded, writes its instance into slot count when it is loaded afterwards, moves the cursor by at most one, and keeps the later slots default |
| UDInstances.GetUDSInstances | integrations/unity-csharp/Assets/VDK/UDUtilities.cs:45-66 | returns the reference result for the models' states on entry; leaves each model in its state after the load attempt, so the new states are AfterLoadAll of the old ones; calls LoadModel on each model that was not loaded and on no loaded model |

## Left out

- `VDKSessionThreadManager` (UDUtilities.cs lines 72-131) is not part of this model. It consists of threads, `Thread.Sleep`, `Thread.Abort`, polling loops and a wall-clock license-expiry message, all concurrency, clock and logging.
- The scene lookup (`GameObject.FindGameObjectsWithTag`, `GetComponent`) is not modelled. The tagged models are given as the `objects` parameter. A tagged object without a `UDSModel` component makes the source throw a null-reference exception; that case is not modelled.
- `UDSModel.cs` and the native SDK behind `LoadModel` are not part of this model. A load is modelled by its outcome, the per-model constant `loadsSuccessfully`. The handle `udModel.pModel` is a per-model constant.
- Matrix products and the inverse are Unity's single-precision numerics. They are the uninterpreted parameters `mul` and `inverse`, so no floating-point behaviour is modelled.
- The widening of the matrix elements from `float` to `double` in `GetUDMatrix` is not modelled. The element type is generic, so the model shows only where each value goes.
- The null `worldMatrix` array of a default `vdkRenderInstance` is modelled as the empty sequence.
- `Debug.Log` output and the `GlobalVDKContext` singleton are I/O and external state, and are not modelled.
- UDInstances.VisitModel: the body of the source's loop is written as a separate method. This changes the structure of the code, not its behaviour.
- UDInstances.GetUDSInstances: states that `LoadModel` was called at least once, not exactly once, on each model that was not loaded. The model also accepts a list that names the same component twice, which the scene lookup never produces: it lists each game object once, and each component belongs to one game object. For such a list, a model that fails to load is loaded again at its second position.
- UDInstances.InstancesAfterLoadAll: holds only because a load outcome is a per-model constant. In the program, a model whose load failed stays unloaded, the next discovery calls `LoadModel` on it again, and that load may succeed. The lemma assumes that a load which failed once fails again.
- UDInstances.AfterLoadAllIdempotent: for the same reason, this assumes a load which failed once fails again. In the program a second discovery retries the load, and it may succeed.
