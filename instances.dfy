// Discovery of the point-cloud models in a scene (UDUtilities.getUDSInstances):
// each tagged model is loaded if it is not loaded yet, every loaded model is
// written into the next free slot of an array sized for all models, and the
// slots whose point-cloud handle is zero are dropped at the end.
//
// The scene lookup and the SDK are outside the model: the tagged models are
// the `objects` parameter, the SDK's load outcome is a constant of each model,
// and Unity's matrix product and inverse are the `mul` and `inverse`
// parameters, applied in the order the source applies them.
module UDInstances {
  import opened UDMatrix

  /** A native handle (IntPtr); NullHandle is IntPtr.Zero. */
  type Handle = int
  const NullHandle: Handle := 0

  /**
   * vdkRenderInstance: a point-cloud handle and its world matrix in the SDK's
   * layout. The default value of the struct has the zero handle and no matrix
   * (a null array, written []).
   */
  datatype RenderInstance<T> = RenderInstance(pointCloud: Handle, worldMatrix: seq<T>)

  function EmptyInstance<T>(): RenderInstance<T>
  {
    RenderInstance(NullHandle, [])
  }

  /** Unity's Matrix4x4 product and inverse, which the model does not interpret. */
  type MatrixProduct<!T> = (Matrix4x4<T>, Matrix4x4<T>) -> Matrix4x4<T>
  type MatrixInverse<!T> = Matrix4x4<T> -> Matrix4x4<T>

  /**
   * What a tagged model brings besides its loaded flag, none of which the
   * discovery changes: the outcome the SDK load would have, the handle
   * udModel.pModel holds once the model is loaded, the model's pivot and
   * scale matrices, and its game object's localToWorldMatrix.
   */
  datatype ModelInfo<T> = ModelInfo(
    loadsSuccessfully: bool,
    pModel: Handle,
    pivotTranslation: Matrix4x4<T>,
    modelScale: Matrix4x4<T>,
    localToWorld: Matrix4x4<T>)

  /** The observable state of one tagged model, as a value. */
  datatype ModelState<T> = ModelState(isLoaded: bool, info: ModelInfo<T>)

  /**
   * A UDSModel component together with the transform of its game object.
   * The SDK load is modelled by its outcome: LoadModel leaves the model
   * loaded exactly when info.loadsSuccessfully holds.
   */
  class UDSModel<T> {
    var isLoaded: bool
    const info: ModelInfo<T>
    /** How many times LoadModel has been called on this model. */
    ghost var loadCalls: nat

    constructor (isLoaded: bool, info: ModelInfo<T>)
      ensures State() == ModelState(isLoaded, info)
      ensures loadCalls == 0
    {
      this.isLoaded := isLoaded;
      this.info := info;
      loadCalls := 0;
    }

    function State(): ModelState<T>
      reads this
    {
      ModelState(isLoaded, info)
    }

    /** The SDK load: afterwards the model is loaded exactly when the load succeeds. */
    method LoadModel()
      modifies this
      ensures isLoaded == info.loadsSuccessfully
      ensures loadCalls == old(loadCalls) + 1
    {
      isLoaded := info.loadsSuccessfully;
      loadCalls := loadCalls + 1;
    }
  }

  /** The states of the tagged models, in scene order. */
  function States<T>(objects: seq<UDSModel<T>>): (states: seq<ModelState<T>>)
    reads objects
    ensures |states| == |objects|
    ensures forall k :: 0 <= k < |objects| ==> states[k] == objects[k].State()
  {
    seq(|objects|, k requires 0 <= k < |objects| reads objects => objects[k].State())
  }

  // ---------------------------------------------------------------------
  // Specification on values

  /** The state after "if (!model.isLoaded) model.LoadModel();". */
  function AfterLoad<T>(s: ModelState<T>): (t: ModelState<T>)
    ensures t.isLoaded == (s.isLoaded || s.info.loadsSuccessfully) && t.info == s.info
  {
    if s.isLoaded then s else s.(isLoaded := s.info.loadsSuccessfully)
  }

  /** The states of all models after one discovery. */
  function AfterLoadAll<T>(states: seq<ModelState<T>>): (r: seq<ModelState<T>>)
    ensures |r| == |states|
    ensures forall k :: 0 <= k < |states| ==> r[k] == AfterLoad(states[k])
  {
    if states == [] then [] else AfterLoadAll(states[..|states| - 1]) + [AfterLoad(states[|states| - 1])]
  }

  /** pivotTranslation * modelScale * localToWorldMatrix * pivotTranslation.inverse, left to right. */
  function WorldTransform<T>(m: ModelInfo<T>, mul: MatrixProduct<T>, inverse: MatrixInverse<T>): Matrix4x4<T>
  {
    mul(mul(mul(m.pivotTranslation, m.modelScale), m.localToWorld), inverse(m.pivotTranslation))
  }

  /** The render instance written for a loaded model. */
  function InstanceOf<T>(m: ModelInfo<T>, mul: MatrixProduct<T>, inverse: MatrixInverse<T>): (inst: RenderInstance<T>)
    ensures inst.pointCloud == m.pModel && |inst.worldMatrix| == 16
  {
    RenderInstance(m.pModel, GetUDMatrix(WorldTransform(m, mul, inverse)))
  }

  /** The slots the loop fills: one per model that is loaded after the load attempt, in order. */
  function Written<T>(states: seq<ModelState<T>>, mul: MatrixProduct<T>, inverse: MatrixInverse<T>): (r: seq<RenderInstance<T>>)
    ensures |r| <= |states|
  {
    if states == [] then []
    else
      var last := states[|states| - 1];
      Written(states[..|states| - 1], mul, inverse)
        + (if AfterLoad(last).isLoaded then [InstanceOf(last.info, mul, inverse)] else [])
  }

  /** The final filter: Where(m => m.pointCloud != IntPtr.Zero), order kept. */
  function WithHandle<T>(slots: seq<RenderInstance<T>>): (r: seq<RenderInstance<T>>)
    ensures |r| <= |slots|
    ensures forall j :: 0 <= j < |r| ==> r[j].pointCloud != NullHandle
  {
    if slots == [] then []
    else
      var last := slots[|slots| - 1];
      WithHandle(slots[..|slots| - 1]) + (if last.pointCloud != NullHandle then [last] else [])
  }

  /** A model contributes an instance when it is loaded after the load attempt and has a handle. */
  predicate Qualifies<T>(s: ModelState<T>)
  {
    AfterLoad(s).isLoaded && s.info.pModel != NullHandle
  }

  /** Reference definition of the result: the instances of the qualifying models, in scene order. */
  function Instances<T>(states: seq<ModelState<T>>, mul: MatrixProduct<T>, inverse: MatrixInverse<T>): (r: seq<RenderInstance<T>>)
    ensures |r| <= |states|
    ensures forall j :: 0 <= j < |r| ==> r[j].pointCloud != NullHandle
  {
    if states == [] then []
    else
      var last := states[|states| - 1];
      Instances(states[..|states| - 1], mul, inverse)
        + (if Qualifies(last) then [InstanceOf(last.info, mul, inverse)] else [])
  }

  /** The positions of the qualifying models, in increasing order. */
  function QualifyingIndices<T>(states: seq<ModelState<T>>): (idx: seq<nat>)
    ensures |idx| <= |states|
  {
    if states == [] then []
    else
      QualifyingIndices(states[..|states| - 1])
        + (if Qualifies(states[|states| - 1]) then [|states| - 1] else [])
  }

  /** The set of positions of the qualifying models. */
  ghost function QualifyingSet<T>(states: seq<ModelState<T>>): set<nat>
  {
    set k: nat | k < |states| && Qualifies(states[k])
  }

  // ---------------------------------------------------------------------
  // The operation

  /** The first count slots hold what the loop writes for states; the others are unused. */
  ghost predicate Filled<T>(slots: seq<RenderInstance<T>>, count: nat, states: seq<ModelState<T>>,
                            mul: MatrixProduct<T>, inverse: MatrixInverse<T>)
  {
    count <= |slots| && slots[..count] == Written(states, mul, inverse) &&
    forall k :: count <= k < |slots| ==> slots[k] == EmptyInstance()
  }

  /** A model as it was when the discovery started, with flag wasLoaded and `calls` calls of LoadModel. */
  ghost predicate Untouched<T>(model: UDSModel<T>, wasLoaded: bool, calls: nat)
    reads model
  {
    model.isLoaded == wasLoaded && model.loadCalls == calls
  }

  /**
   * A model the discovery has visited: loaded exactly when it was loaded or
   * its load succeeds, and LoadModel called on it exactly when it was not loaded.
   */
  ghost predicate Visited<T>(model: UDSModel<T>, wasLoaded: bool, calls: nat)
    reads model
  {
    model.isLoaded == (wasLoaded || model.info.loadsSuccessfully) &&
    (if wasLoaded then model.loadCalls == calls else model.loadCalls > calls)
  }

  /**
   * The body of the discovery loop for one model: loads the model if it is
   * not loaded and, if it is loaded afterwards, writes its instance into slot
   * count and advances the cursor. The ghost parameters are the model's flag
   * and load count when the discovery started, and the states of the models
   * visited before it.
   */
  method VisitModel<T>(model: UDSModel<T>, modelArray: array<RenderInstance<T>>, count: nat,
                       ghost wasLoaded: bool, ghost calls: nat, ghost states: seq<ModelState<T>>,
                       mul: MatrixProduct<T>, inverse: MatrixInverse<T>)
      returns (next: nat)
    requires count < modelArray.Length
    requires Filled(modelArray[..], count, states, mul, inverse)
    requires Untouched(model, wasLoaded, calls) || Visited(model, wasLoaded, calls)
    modifies model, modelArray
    ensures Visited(model, wasLoaded, calls)
    ensures count <= next <= count + 1
    ensures Filled(modelArray[..], next, states + [ModelState(wasLoaded, model.info)], mul, inverse)
  {
    WrittenSnoc(states, ModelState(wasLoaded, model.info), mul, inverse);
    if !model.isLoaded {
      model.LoadModel();
    }
    next := count;
    if model.isLoaded {
      modelArray[count] := InstanceOf(model.info, mul, inverse);
      next := count + 1;
      assert modelArray[..next] == old(modelArray[..count]) + [InstanceOf(model.info, mul, inverse)];
    }
  }

  /**
   * UDUtilities.getUDSInstances over the tagged models `objects`.
   * Returns the instances of the models that are loaded after the load
   * attempt and have a non-zero handle, in scene order; loads each model
   * that was not loaded, and only those.
   */
  method GetUDSInstances<T>(objects: seq<UDSModel<T>>, mul: MatrixProduct<T>, inverse: MatrixInverse<T>)
      returns (instances: seq<RenderInstance<T>>)
    modifies objects
    ensures instances == Instances(old(States(objects)), mul, inverse)
    ensures forall k :: 0 <= k < |objects| ==> objects[k].State() == AfterLoad(old(objects[k].State()))
    ensures States(objects) == AfterLoadAll(old(States(objects)))
    ensures forall k :: 0 <= k < |objects| && old(objects[k].isLoaded) ==> objects[k].loadCalls == old(objects[k].loadCalls)
    ensures forall k :: 0 <= k < |objects| && !old(objects[k].isLoaded) ==> objects[k].loadCalls > old(objects[k].loadCalls)
  {
    ghost var init := States(objects);
    var n := |objects|;
    var count: nat := 0;
    var modelArray := new RenderInstance<T>[n](_ => EmptyInstance());
    // the models LoadModel may have been called on so far (a model may be listed twice)
    ghost var visited: set<UDSModel<T>> := {};
    for i := 0 to n
      invariant count <= i
      invariant Filled(modelArray[..], count, init[..i], mul, inverse)
      invariant forall k :: 0 <= k < i ==> objects[k] in visited
      invariant forall k :: 0 <= k < n ==>
        if objects[k] in visited then Visited(objects[k], old(objects[k].isLoaded), old(objects[k].loadCalls))
        else Untouched(objects[k], old(objects[k].isLoaded), old(objects[k].loadCalls))
    {
      assert init[i] == ModelState(old(objects[i].isLoaded), objects[i].info);
      TakeOneMore(init, i);
      count := VisitModel(objects[i], modelArray, count, old(objects[i].isLoaded), old(objects[i].loadCalls), init[..i], mul, inverse);
      visited := visited + {objects[i]};
    }
    assert init[..n] == init;
    instances := WithHandle(modelArray[..]);
    WithHandleOfFilled(modelArray[..], count, init, mul, inverse);
    AfterLoadAllPointwise(init, States(objects));
  }

  // ---------------------------------------------------------------------
  // Lemmas

  lemma TakeOneMore<X>(s: seq<X>, i: nat)
    requires i < |s|
    ensures s[..i + 1] == s[..i] + [s[i]]
  {
  }

  /** A sequence holding each state after its load attempt is AfterLoadAll of the states. */
  lemma AfterLoadAllPointwise<T>(before: seq<ModelState<T>>, after: seq<ModelState<T>>)
    requires |after| == |before|
    requires forall k :: 0 <= k < |before| ==> after[k] == AfterLoad(before[k])
    ensures after == AfterLoadAll(before)
  {
  }

  /** Reading back the world matrix of an instance gives the model's composite transform. */
  lemma InstanceOfWorldMatrix<T>(m: ModelInfo<T>, mul: MatrixProduct<T>, inverse: MatrixInverse<T>)
    ensures FromUDMatrix(InstanceOf(m, mul, inverse).worldMatrix) == WorldTransform(m, mul, inverse)
  {
    FromGetUDMatrix(WorldTransform(m, mul, inverse));
  }

  /** Written grows by at most one slot per model. */
  lemma WrittenSnoc<T>(states: seq<ModelState<T>>, s: ModelState<T>, mul: MatrixProduct<T>, inverse: MatrixInverse<T>)
    ensures Written(states + [s], mul, inverse)
      == Written(states, mul, inverse) + (if AfterLoad(s).isLoaded then [InstanceOf(s.info, mul, inverse)] else [])
  {
    assert (states + [s])[..|states|] == states;
  }

  /** The filter distributes over concatenation. */
  lemma {:induction false} WithHandleAppend<T>(a: seq<RenderInstance<T>>, b: seq<RenderInstance<T>>)
    ensures WithHandle(a + b) == WithHandle(a) + WithHandle(b)
  {
    if b == [] {
      assert a + b == a;
    } else {
      var b' := b[..|b| - 1];
      assert (a + b)[..|a + b| - 1] == a + b';
      WithHandleAppend(a, b');
    }
  }

  /** Unused slots hold the zero handle and are all dropped. */
  lemma {:induction false} WithHandleOfEmptySlots<T>(slots: seq<RenderInstance<T>>)
    requires forall k :: 0 <= k < |slots| ==> slots[k] == EmptyInstance()
    ensures WithHandle(slots) == []
  {
    if slots != [] {
      WithHandleOfEmptySlots(slots[..|slots| - 1]);
    }
  }

  /** Filtering the written slots gives exactly the reference result. */
  lemma {:induction false} WithHandleOfWritten<T>(states: seq<ModelState<T>>, mul: MatrixProduct<T>, inverse: MatrixInverse<T>)
    ensures WithHandle(Written(states, mul, inverse)) == Instances(states, mul, inverse)
  {
    if states != [] {
      var init, last := states[..|states| - 1], states[|states| - 1];
      WithHandleOfWritten(init, mul, inverse);
      var tail := if AfterLoad(last).isLoaded then [InstanceOf(last.info, mul, inverse)] else [];
      WithHandleAppend(Written(init, mul, inverse), tail);
      if AfterLoad(last).isLoaded {
        assert WithHandle(tail) == WithHandle([]) + (if last.info.pModel != NullHandle then tail else []);
      }
    }
  }

  /** The filled slots followed by unused ones filter to the reference result. */
  lemma WithHandleOfFilled<T>(slots: seq<RenderInstance<T>>, count: nat, states: seq<ModelState<T>>,
                              mul: MatrixProduct<T>, inverse: MatrixInverse<T>)
    requires Filled(slots, count, states, mul, inverse)
    ensures WithHandle(slots) == Instances(states, mul, inverse)
  {
    assert slots == slots[..count] + slots[count..];
    WithHandleOfEmptySlots(slots[count..]);
    WithHandleAppend(slots[..count], slots[count..]);
    WithHandleOfWritten(states, mul, inverse);
  }

  /**
   * QualifyingIndices lists exactly the qualifying positions, each once and
   * in increasing order.
   */
  lemma {:induction false} QualifyingIndicesSpec<T>(states: seq<ModelState<T>>)
    ensures forall j :: 0 <= j < |QualifyingIndices(states)| ==>
      QualifyingIndices(states)[j] < |states| && Qualifies(states[QualifyingIndices(states)[j]])
    ensures forall j, j' :: 0 <= j < j' < |QualifyingIndices(states)| ==>
      QualifyingIndices(states)[j] < QualifyingIndices(states)[j']
    ensures forall k :: 0 <= k < |states| && Qualifies(states[k]) ==> k in QualifyingIndices(states)
  {
    if states != [] {
      var init := states[..|states| - 1];
      QualifyingIndicesSpec(init);
      assert forall k :: 0 <= k < |init| ==> init[k] == states[k];
    }
  }

  /**
   * The result lists, in order, the instance of each qualifying model: entry
   * j is the instance of the model at the j-th qualifying position.
   */
  lemma {:induction false} InstancesAtQualifyingIndices<T>(states: seq<ModelState<T>>, mul: MatrixProduct<T>, inverse: MatrixInverse<T>)
    ensures |Instances(states, mul, inverse)| == |QualifyingIndices(states)|
    ensures forall j :: 0 <= j < |QualifyingIndices(states)| ==>
      QualifyingIndices(states)[j] < |states| &&
      Instances(states, mul, inverse)[j] == InstanceOf(states[QualifyingIndices(states)[j]].info, mul, inverse)
  {
    QualifyingIndicesSpec(states);
    if states != [] {
      var init := states[..|states| - 1];
      InstancesAtQualifyingIndices(init, mul, inverse);
      QualifyingIndicesSpec(init);
      assert forall k :: 0 <= k < |init| ==> init[k] == states[k];
    }
  }

  /** The number of instances is the number of models that are loaded after the attempt and have a handle. */
  lemma {:induction false} InstancesCount<T>(states: seq<ModelState<T>>, mul: MatrixProduct<T>, inverse: MatrixInverse<T>)
    ensures |Instances(states, mul, inverse)| == |QualifyingSet(states)|
  {
    if states != [] {
      var init, last := states[..|states| - 1], states[|states| - 1];
      InstancesCount(init, mul, inverse);
      var extra: set<nat> := if Qualifies(last) then {|init|} else {};
      assert QualifyingSet(states) == QualifyingSet(init) + extra by {
        assert forall k :: 0 <= k < |init| ==> init[k] == states[k];
      }
      assert |init| !in QualifyingSet(init);
    }
  }

  /** A second discovery loads nothing new into the result: it returns the same instances. */
  lemma {:induction false} InstancesAfterLoadAll<T>(states: seq<ModelState<T>>, mul: MatrixProduct<T>, inverse: MatrixInverse<T>)
    ensures Instances(AfterLoadAll(states), mul, inverse) == Instances(states, mul, inverse)
  {
    if states != [] {
      var init := states[..|states| - 1];
      InstancesAfterLoadAll(init, mul, inverse);
      assert AfterLoadAll(states)[..|states| - 1] == AfterLoadAll(init);
    }
  }

  /** Loading is settled after one discovery: a second one leaves every state as it is. */
  lemma AfterLoadAllIdempotent<T>(states: seq<ModelState<T>>)
    ensures AfterLoadAll(AfterLoadAll(states)) == AfterLoadAll(states)
  {
  }

  /**
   * Two models that are not loaded: a loads and has a handle, b fails to
   * load. Only a yields an instance, whichever of the two comes first.
   */
  lemma OneLoadsOneFails<T>(a: ModelInfo<T>, b: ModelInfo<T>, mul: MatrixProduct<T>, inverse: MatrixInverse<T>)
    requires a.loadsSuccessfully && a.pModel != NullHandle && !b.loadsSuccessfully
    ensures Instances([ModelState(false, a), ModelState(false, b)], mul, inverse) == [InstanceOf(a, mul, inverse)]
    ensures Instances([ModelState(false, b), ModelState(false, a)], mul, inverse) == [InstanceOf(a, mul, inverse)]
  {
    assert [ModelState(false, a), ModelState(false, b)][..1] == [ModelState(false, a)];
    assert [ModelState(false, b), ModelState(false, a)][..1] == [ModelState(false, b)];
  }
}
