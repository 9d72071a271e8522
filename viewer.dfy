/** The mesh viewer component: the references it keeps to the three.js
    scene, camera, renderer and orbit controls, the single current model,
    and the handlers that mount, resize, tear down and load a new OBJ file. */
module Viewer {
  import opened JsStrings
  import opened JsNumbers
  import opened Framing
  import opened ObjParser

  /** A file picked in the file input. */
  datatype FileInfo = FileInfo(name: string, size: nat)

  /** The renderer's drawing size. */
  datatype Size = Size(width: nat, height: nat)

  const WrongExtensionAlert := "Please upload a .obj file"
  const ReadFailedAlert := "Failed to read OBJ file."
  const ParseFailedAlert := "Error parsing OBJ file. Please make sure it is valid."

  /** `clientWidth / clientHeight`: Infinity or NaN for a zero height. */
  function Aspect(width: nat, height: nat): (r: Num)
    ensures r.Finite? <==> height > 0
    ensures r.Finite? ==> r.value * (height as real) == width as real
  {
    Div(Finite(width as real), Finite(height as real))
  }

  /** The camera of a fresh viewer: at (6, 4, 6), near plane 0.1, far plane
      1000, aspect of the container. */
  function InitialCamera(width: nat, height: nat): Camera {
    Camera(Vec3(Finite(6.0), Finite(4.0), Finite(6.0)), Aspect(width, height), Finite(0.1), Finite(1000.0))
  }

  /** `scene.remove(m)`: the children without `m`. */
  function Without(children: seq<Mesh>, m: Mesh): (r: seq<Mesh>)
    ensures forall i :: 0 <= i < |r| ==> r[i] != m && r[i] in children
    ensures forall i :: 0 <= i < |children| && children[i] != m ==> children[i] in r
    ensures |r| <= |children|
  {
    if children == [] then []
    else if children[0] == m then Without(children[1..], m)
    else [children[0]] + Without(children[1..], m)
  }

  lemma WithoutOnly(m: Mesh)
    ensures Without([m], m) == []
  {
    assert [m][1..] == [];
  }

  /** A mesh's footprint: the mesh and its material flags. */
  function MeshRepr(m: Mesh?): set<object> {
    if m == null then {} else {m, m.materialDisposed}
  }

  /** A `THREE.Mesh` the viewer builds: a non-indexed position buffer, the
      uniform transform, and whether its geometry and each of its
      materials have been disposed. */
  class Mesh {
    const positions: seq<Num>
    var transform: Transform
    var geometryDisposed: bool
    const materialDisposed: array<bool>

    constructor (positions: seq<Num>, materials: nat)
      ensures this.positions == positions && transform == Identity && !geometryDisposed
      ensures fresh(materialDisposed) && materialDisposed.Length == materials
      ensures forall i :: 0 <= i < materials ==> !materialDisposed[i]
    {
      this.positions := positions;
      transform := Identity;
      geometryDisposed := false;
      materialDisposed := new bool[materials](_ => false);
    }

    predicate Disposed()
      reads this, materialDisposed
    {
      geometryDisposed && forall i :: 0 <= i < materialDisposed.Length ==> materialDisposed[i]
    }

    predicate Untouched()
      reads this, materialDisposed
    {
      !geometryDisposed && forall i :: 0 <= i < materialDisposed.Length ==> !materialDisposed[i]
    }

    /** The box three.js computes for the mesh in world space. */
    function WorldBounds(): Box
      requires |positions| % 3 == 0
      reads this
    {
      WorldBox(BoxOf(positions), transform)
    }

    /** `disposeMesh`: the geometry, then every material in turn. */
    method Dispose()
      modifies this, materialDisposed
      ensures Disposed()
      ensures transform == old(transform)
    {
      geometryDisposed := true;
      for i := 0 to materialDisposed.Length
        invariant geometryDisposed && transform == old(transform)
        invariant forall j :: 0 <= j < i ==> materialDisposed[j]
      {
        materialDisposed[i] := true;
      }
    }

    /** `centerAndScaleModel`, with the offset scaled together with the
        mesh; a fresh mesh of non-zero extent ends centred on the origin
        with its largest side 4. */
    method CenterAndScale()
      requires |positions| % 3 == 0
      modifies this
      ensures transform == Normalize(old(transform), WorldBox(BoxOf(positions), old(transform)))
      ensures old(transform) == Identity && BoxOf(positions).FiniteBox? && MaxDim(BoxOf(positions)) != Finite(0.0) ==>
                Center(WorldBounds()) == Origin && MaxDim(WorldBounds()) == Finite(4.0)
      ensures geometryDisposed == old(geometryDisposed)
    {
      if transform == Identity && BoxOf(positions).FiniteBox? && MaxDim(BoxOf(positions)) != Finite(0.0) {
        NormalizedBoxIsCentred(BoxOf(positions));
      }
      var world := WorldBox(BoxOf(positions), transform);
      transform := Normalize(transform, world);
    }
  }

  class Viewer {
    /** `tan(fov / 2)` for the camera's 60-degree field of view. */
    const tanHalfFov: real
    /** `Vector3.normalize`. */
    const normalize: Vec3 -> Vec3

    /** The models in the scene; its lights and grid are not recorded. */
    var scene: Option<seq<Mesh>>
    var camera: Option<Camera>
    /** The orbit controls, by their target. */
    var target: Option<Vec3>
    var renderer: Option<Size>
    var listening: bool
    var current: Mesh?

    var fileName: Option<string>
    var fileSize: Option<nat>
    var loading: bool
    var alerts: seq<string>

    /** The references are set and cleared together, and a current model
        is the scene's only model and has not been disposed. */
    predicate Valid()
      reads this, MeshRepr(current)
    {
      (scene.Some? <==> camera.Some?) && (scene.Some? <==> target.Some?)
      && (scene.Some? <==> renderer.Some?) && (scene.Some? <==> listening)
      && (current != null ==> scene.Some? && scene.value == [current] && current.Untouched() && |current.positions| % 3 == 0)
      && (current == null && scene.Some? ==> scene.value == [])
    }

    constructor (tanHalfFov: real, normalize: Vec3 -> Vec3)
      requires tanHalfFov > 0.0
      ensures Valid()
      ensures this.tanHalfFov == tanHalfFov && this.normalize == normalize
      ensures scene.None? && current == null && !loading && alerts == []
      ensures fileName.None? && fileSize.None?
    {
      this.tanHalfFov := tanHalfFov;
      this.normalize := normalize;
      scene, camera, target, renderer := None, None, None, None;
      listening := false;
      current := null;
      fileName, fileSize, loading, alerts := None, None, false, [];
    }

    /** The mount effect: nothing without a container; otherwise an empty
        scene, the initial camera, a renderer of the container's size,
        controls aimed at the origin, and the resize listener. React runs
        it only while nothing is mounted. */
    method Mount(hasContainer: bool, width: nat, height: nat)
      requires Valid() && scene.None?
      modifies this
      ensures Valid()
      ensures hasContainer ==>
                scene.Some? && scene.value == [] && camera == Some(InitialCamera(width, height))
                && target == Some(Origin) && renderer == Some(Size(width, height)) && listening
      ensures !hasContainer ==>
                scene == old(scene) && camera == old(camera) && target == old(target)
                && renderer == old(renderer) && listening == old(listening)
      ensures current == old(current)
      ensures fileName == old(fileName) && fileSize == old(fileSize)
      ensures loading == old(loading) && alerts == old(alerts)
    {
      if !hasContainer {
        return;
      }
      scene := Some([]);
      camera := Some(InitialCamera(width, height));
      renderer := Some(Size(width, height));
      target := Some(Origin);
      listening := true;
    }

    /** `handleResize`: with a container, camera and renderer, the aspect
        follows the container and the renderer takes its size. */
    method HandleResize(hasContainer: bool, width: nat, height: nat)
      requires Valid()
      modifies this
      ensures Valid()
      ensures hasContainer && old(camera).Some? && old(renderer).Some? ==>
                camera == Some(old(camera).value.(aspect := Aspect(width, height)))
                && renderer == Some(Size(width, height))
      ensures !(hasContainer && old(camera).Some? && old(renderer).Some?) ==>
                camera == old(camera) && renderer == old(renderer)
      ensures scene == old(scene) && target == old(target) && listening == old(listening)
      ensures current == old(current)
      ensures fileName == old(fileName) && fileSize == old(fileSize)
      ensures loading == old(loading) && alerts == old(alerts)
    {
      if !hasContainer || camera.None? || renderer.None? {
        return;
      }
      camera := Some(camera.value.(aspect := Aspect(width, height)));
      renderer := Some(Size(width, height));
    }

    /** The effect's cleanup: the listener goes and every reference is
        cleared; the current mesh is dropped without being disposed. */
    method Teardown()
      requires Valid()
      modifies this
      ensures Valid()
      ensures scene.None? && camera.None? && target.None? && renderer.None? && !listening
      ensures current == null
      ensures old(current) != null ==> old(current).Untouched()
      ensures fileName == old(fileName) && fileSize == old(fileSize)
      ensures loading == old(loading) && alerts == old(alerts)
    {
      listening := false;
      scene, camera, renderer, target := None, None, None, None;
      current := null;
    }

    /** `handleFileChange` up to the read: no file does nothing, a name not
        ending in `.obj` (in any case) raises an alert, and otherwise the
        file is recorded, loading starts and the read is issued. */
    method SelectFile(file: Option<FileInfo>) returns (readStarted: bool)
      requires Valid()
      modifies this
      ensures Valid()
      ensures readStarted <==> file.Some? && EndsWith(ToLower(file.value.name), ".obj")
      ensures readStarted ==>
                fileName == Some(file.value.name) && fileSize == Some(file.value.size)
                && loading && alerts == old(alerts)
      ensures file.Some? && !readStarted ==>
                alerts == old(alerts) + [WrongExtensionAlert]
                && fileName == old(fileName) && fileSize == old(fileSize) && loading == old(loading)
      ensures file.None? ==>
                alerts == old(alerts) && fileName == old(fileName) && fileSize == old(fileSize)
                && loading == old(loading)
      ensures scene == old(scene) && camera == old(camera) && target == old(target)
      ensures renderer == old(renderer) && listening == old(listening) && current == old(current)
    {
      readStarted := false;
      if file.None? {
        return;
      }
      if !EndsWith(ToLower(file.value.name), ".obj") {
        alerts := alerts + [WrongExtensionAlert];
        return;
      }
      fileName := Some(file.value.name);
      fileSize := Some(file.value.size);
      loading := true;
      readStarted := true;
    }

    /** `fitCameraToObject`: nothing without camera and controls. */
    method FitCamera(mesh: Mesh)
      requires |mesh.positions| % 3 == 0
      modifies this
      ensures camera.Some? && target.Some? <==> old(camera).Some? && old(target).Some?
      ensures old(camera).Some? && old(target).Some? ==>
                var fitted := Fit(View(old(camera).value, old(target).value), mesh.WorldBounds(), tanHalfFov, normalize);
                camera == Some(fitted.camera) && target == Some(fitted.target)
      ensures !(old(camera).Some? && old(target).Some?) ==> camera == old(camera) && target == old(target)
      ensures scene == old(scene) && renderer == old(renderer) && listening == old(listening)
      ensures current == old(current)
      ensures fileName == old(fileName) && fileSize == old(fileSize)
      ensures loading == old(loading) && alerts == old(alerts)
    {
      if camera.None? || target.None? {
        return;
      }
      var fitted := Fit(View(camera.value, target.value), mesh.WorldBounds(), tanHalfFov, normalize);
      target := Some(fitted.target);
      camera := Some(fitted.camera);
    }

    /** The model swap: the old mesh, if any, leaves the scene and is
        disposed; the new one is normalised, added and framed. */
    method Install(mesh: Mesh)
      requires Valid() && scene.Some?
      requires MeshRepr(mesh) !! MeshRepr(current)
      requires mesh.Untouched() && mesh.transform == Identity && |mesh.positions| % 3 == 0
      modifies this, MeshRepr(current), mesh
      ensures Valid()
      ensures current == mesh && scene.Some? && scene.value == [mesh]
      ensures mesh.transform == Normalize(Identity, WorldBox(BoxOf(mesh.positions), Identity))
      ensures old(current) != null ==> old(current).Disposed()
      ensures var fitted := Fit(View(old(camera).value, old(target).value), mesh.WorldBounds(), tanHalfFov, normalize);
              camera == Some(fitted.camera) && target == Some(fitted.target)
      ensures BoxOf(mesh.positions).FiniteBox? && MaxDim(BoxOf(mesh.positions)) != Finite(0.0) ==>
                target == Some(Origin) && camera.value.near == Finite(0.04) && camera.value.far == Finite(400.0)
      ensures renderer == old(renderer) && listening == old(listening)
      ensures fileName == old(fileName) && fileSize == old(fileSize)
      ensures loading == old(loading) && alerts == old(alerts)
    {
      ghost var view := View(camera.value, target.value);
      var children := scene.value;
      if current != null {
        WithoutOnly(current);
        children := Without(children, current);
        scene := Some(children);
        current.Dispose();
      }
      mesh.CenterAndScale();
      children := children + [mesh];
      scene := Some(children);
      current := mesh;
      FitCamera(mesh);
      WorldBoxOfIdentity(BoxOf(mesh.positions));
      if BoxOf(mesh.positions).FiniteBox? && MaxDim(BoxOf(mesh.positions)) != Finite(0.0) {
        NormalizedThenFitted(BoxOf(mesh.positions), view, tanHalfFov, normalize);
      }
    }

    /** The success path of the reader callback: a mesh is built from the
        parsed positions and, when the scene exists, installed in it. */
    method ShowParsed(positions: seq<Num>)
      requires Valid() && |positions| % 3 == 0
      modifies this, MeshRepr(current)
      ensures Valid()
      ensures !loading && fileName == old(fileName) && fileSize == old(fileSize)
      ensures renderer == old(renderer) && listening == old(listening) && alerts == old(alerts)
      ensures old(scene).None? ==>
                scene == old(scene) && current == old(current)
                && camera == old(camera) && target == old(target)
      ensures old(scene).Some? ==>
                current != null && fresh(current)
                && current.positions == positions
                && current.transform == Normalize(Identity, WorldBox(BoxOf(positions), Identity))
                && scene.Some? && scene.value == [current]
                && (old(current) != null ==> old(current).Disposed())
                && var fitted := Fit(View(old(camera).value, old(target).value), current.WorldBounds(), tanHalfFov, normalize);
                   camera == Some(fitted.camera) && target == Some(fitted.target)
    {
      if scene.Some? {
        var mesh := new Mesh(positions, 1);
        Install(mesh);
      }
      loading := false;
    }

    /** The reader's `onload`. A result that is not a string, or an
        exception while parsing or building the mesh, ends loading with an
        alert and leaves the scene and the current mesh alone. Otherwise,
        when a scene exists, the new mesh is installed in place of the old
        one. */
    method OnFileRead(result: Option<string>, parseFloat: string -> Num, buildFails: bool)
      requires Valid()
      modifies this, MeshRepr(current)
      ensures Valid()
      ensures !loading && fileName == old(fileName) && fileSize == old(fileSize)
      ensures renderer == old(renderer) && listening == old(listening)
      ensures result.None? ==> alerts == old(alerts) + [ReadFailedAlert]
      ensures result.Some? && buildFails ==> alerts == old(alerts) + [ParseFailedAlert]
      ensures result.None? || buildFails || old(scene).None? ==>
                scene == old(scene) && current == old(current)
                && camera == old(camera) && target == old(target)
                && (current != null ==> current.Untouched())
      ensures result.Some? && !buildFails ==> alerts == old(alerts)
      ensures result.Some? && !buildFails && old(scene).Some? ==>
                current != null && fresh(current)
                && current.positions == Parse(result.value, parseFloat)
                && current.transform == Normalize(Identity, WorldBox(BoxOf(current.positions), Identity))
                && scene.Some? && scene.value == [current]
                && (old(current) != null ==> old(current).Disposed())
                && var fitted := Fit(View(old(camera).value, old(target).value), current.WorldBounds(), tanHalfFov, normalize);
                   camera == Some(fitted.camera) && target == Some(fitted.target)
    {
      if result.None? {
        loading := false;
        alerts := alerts + [ReadFailedAlert];
        return;
      }
      if buildFails {
        loading := false;
        alerts := alerts + [ParseFailedAlert];
        return;
      }
      var positions := ParseObj(result.value, parseFloat);
      ShowParsed(positions);
    }
  }
}
