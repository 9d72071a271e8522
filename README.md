# SDP team 52 demo front end: a Dafny model

The site is a Next.js front end for a 3D reconstruction demo. This
project models the parts of it that hold decision logic:

- **The OBJ viewer** (`components/viewer.tsx`). It reads a Wavefront OBJ
  file into a flat position buffer. It then centres and scales the mesh
  and frames the camera on it. It keeps a single current mesh, which it
  swaps out when a new file is loaded. It also has resize and teardown
  handlers. Modules: `ObjParser` (the reader), `Framing` (bounding box,
  normalisation, camera fit) and `Viewer` (the `Mesh` and `Viewer`
  classes).
- **The scroll router** (`app/ScrollRouter.tsx`). Wheel, key and swipe
  gestures move one page up or down a fixed page order. A lock is held
  from the start of the exit animation until shortly after the route
  push. Module: `ScrollRouter` (pure rules plus the `Router` class).
- **The image upload widget** (`components/Uploadwidget.tsx`). It checks
  a file's type against the accept list, then its size, then its
  resolution. It sends an accepted file to the backend and maps the
  response to one `UploadState` value. Module: `Upload` (pure checks plus
  the `Widget` class).
- **The text prompt form** (`components/textuploadwidget.tsx`): the word
  counter and the Clear and Generate buttons. Module: `TextPrompt`.
- **The pill navigation bar** (`components/PillNav.tsx`): link
  classification, the active marker, the colour fallback and the mobile
  menu flag. Module: `PillNav`.

Two helper modules hold the JavaScript semantics the others rely on:

- `JsStrings`: `trim`, `startsWith`, `endsWith`, `split` on a character
  and on white space, `toLowerCase` over ASCII, and base-10 `parseInt`.
- `JsNumbers`: a number is either finite (a `real`) or `NonFinite`. The
  second case stands for NaN and ±Infinity and absorbs every operation.

Where code works by mutation, the model uses classes, as the code does.
That covers the viewer's refs and state cells, the router's refs and
timers, the upload widget's state cell, the form's cells and the menu
flag. The OBJ reader's loops are methods with loop invariants, each
proved equal to a recursive specification function. The properties are
lemmas about those functions.

The code leaves the normalised mesh off-centre. The model shows this as
written (see Findings). The viewer's classes then install the evident
intent, in which the mesh is centred; "## Left out" names each member
that does so.

## Model

| member | source | states |
|---|---|---|
| ObjParser.ParseObj | components/viewer.tsx:37-90 | The line loop and the buffer fill compute exactly the specification `Parse(text, parseFloat)`. |
| ObjParser.ReadFaceRefs | components/viewer.tsx:55-61 | The inner loop over an `f` line's references gives the 0-based index of each reference, in order. |
| ObjParser.PushFace | components/viewer.tsx:63-69 | The face list grows by exactly the triangulation of the face's references. |
| ObjParser.FillPositions | components/viewer.tsx:73-81 | The array-filling loop produces the expansion of the face indices over the vertices. |
| ObjParser.VertexLineReads | components/viewer.tsx:44-53 | A trimmed `v x y z` line is read as the vertex with fields x, y and z. |
| ObjParser.VertexAttributeLinesSkipped | components/viewer.tsx:44-54 | A line starting with `v` followed by anything other than a space (`vn`, `vt`) adds nothing. |
| ObjParser.FaceLineReads | components/viewer.tsx:54-61 | An `f r1 .. rn` line is read as a face over exactly `r1 .. rn`. |
| ObjParser.SkippedLinesChangeNothing | components/viewer.tsx:43-45 | Inserting blank, comment or unknown lines anywhere leaves the buffer unchanged. |
| ObjParser.OnlySkippedLinesGiveNothing | components/viewer.tsx:41-74 | A file of only blank, comment or unknown lines yields an empty buffer. |
| ObjParser.RefIndexIgnoresAttributes | components/viewer.tsx:58-60 | Texture and normal indices after the first `/` do not change a reference's index. |
| ObjParser.RefIndexOfNumber | components/viewer.tsx:58-60 | The 1-based reference `n`, alone or followed by `/...`, names vertex `n - 1`. |
| ObjParser.Triangulate | components/viewer.tsx:63-69 | A face emits 3 indices for 3 references, 6 for 4, and none for any other count. |
| ObjParser.TriangleKept | components/viewer.tsx:63-64 | A triangle is emitted as (a, b, c). |
| ObjParser.QuadCoversCorners | components/viewer.tsx:65-68 | A quad (a, b, c, d) emits exactly (a, b, c) and then (a, c, d), so it uses every corner, with a and c twice. |
| ObjParser.FacesAreTriangles | components/viewer.tsx:63-69 | The face list always holds whole triangles (its length is a multiple of 3). |
| ObjParser.Expand | components/viewer.tsx:74 | The buffer holds three numbers per face index. |
| ObjParser.WholeTriangleBuffer | components/viewer.tsx:63-81 | The buffer's length is a multiple of 9: three coordinates for each of three corners per triangle. |
| ObjParser.ExpandSlots | components/viewer.tsx:76-81 | Slot i of the buffer holds the three coordinates of vertex `faces[i]`. |
| ObjParser.CornerAllOrNothing | components/viewer.tsx:77-80 | An in-range index copies one whole vertex; an out-of-range or NaN index gives three non-finite numbers. |
| ObjParser.FacesMayPrecedeVertices | components/viewer.tsx:43-81 | Faces are resolved after all lines are read, so a block of faces before its vertices gives the same buffer as after them. |
| JsStrings.ParseIntOfNatToString | components/viewer.tsx:60 | `parseInt` of a decimal numeral (followed by a non-digit or nothing) returns its value. |
| JsStrings.EndsWithIgnoringCase | components/viewer.tsx:234 | The case-insensitive suffix test agrees with comparing the lower-cased tail. |
| JsStrings.SplitOnJoin | components/viewer.tsx:41 | Joining the pieces of a split gives back the text, and no piece contains the separator. |
| Framing.BoxContainsVertices | components/viewer.tsx:94 | Every vertex of the buffer lies inside its finite bounding box. |
| Framing.BoxLowAttained | components/viewer.tsx:94 | Each lower bound of the box is the coordinate of some vertex. |
| Framing.BoxHighAttained | components/viewer.tsx:94 | Each upper bound of the box is the coordinate of some vertex. |
| Framing.BoxNonFiniteIff | components/viewer.tsx:94 | The box is non-finite exactly when some vertex has a non-finite coordinate. |
| Framing.AsWrittenOffCentre | components/viewer.tsx:93-103 | As written, the normalised mesh has largest extent 4 but its centre lands at (k - 1) times the old centre, where k = 4 / maxDim. |
| Framing.AsWrittenCounterexample | components/viewer.tsx:93-103 | For the vertices (10,10,10), (12,10,10) and (10,12,12), whose box has centre (11,11,11) and maxDim 2, the mesh normalised as written is still centred at (11,11,11), not at the origin. |
| Framing.AsWrittenDegenerate | components/viewer.tsx:100-102 | As written, a mesh with no extent gets the scale 4/0 = Infinity and a non-finite box. |
| Framing.NormalizedBoxIsCentred | components/viewer.tsx:93-103 | The corrected normalisation centres the mesh at the origin with largest extent exactly 4. |
| Framing.NormalizeDegenerate | components/viewer.tsx:93-103 | The corrected normalisation only centres a mesh with no extent and keeps its size. |
| Framing.FitDistanceProportional | components/viewer.tsx:113-116 | The fit distance times 2·tan(fov/2) is 1.4 times the largest extent, so it is linear in that extent. |
| Framing.FitDistanceMonotone | components/viewer.tsx:113-116 | A larger mesh is viewed from at least as far. |
| Framing.FitKeepsDirection | components/viewer.tsx:118-123 | When `normalize` scales the old offset d by some positive factor to unit length, the fitted target is the box centre and the new offset is d times a positive factor, so the camera stays on the ray from the target through its old position, and its squared distance from the target is exactly the fit distance squared. |
| Framing.FitClipPlanes | components/viewer.tsx:124-125 | near = maxSize/100 and far = maxSize·100 = 10000·near; near < far exactly when the mesh has a positive extent. |
| Framing.NormalizedThenFitted | components/viewer.tsx:93-128 | After normalising and fitting, the camera looks at the origin with near 0.04 and far 400. |
| Framing.MaxDimNonNegative | components/viewer.tsx:100 | The largest extent of a box is never negative. |
| Viewer.Aspect | components/viewer.tsx:149-155 | `width / height` is finite exactly when the height is positive, and then it is the ratio. |
| Viewer.Without | components/viewer.tsx:266-267 | Removing a mesh from the scene keeps every other child and only the children. |
| Viewer.Mesh.constructor | components/viewer.tsx:255-263 | A new mesh has the parsed positions, the identity transform, and nothing disposed. |
| Viewer.Mesh.Dispose | components/viewer.tsx:130-135 | The geometry and every material of the mesh are disposed; its transform is unchanged. |
| Viewer.Mesh.CenterAndScale | components/viewer.tsx:93-103 | The transform becomes the corrected normalisation (not the code's, see Findings); a fresh mesh with an extent ends centred with largest extent 4. |
| Viewer.Viewer.constructor | components/viewer.tsx:12-22 | The refs start empty, no file is selected and nothing is loading. |
| Viewer.Viewer.Mount | components/viewer.tsx:140-205 | With a container, the scene (holding no model), the camera at (6, 4, 6) with aspect w/h, the controls' target, the renderer size and the resize listener are set together. |
| Viewer.Viewer.HandleResize | components/viewer.tsx:195-203 | With container, camera and renderer present, the aspect becomes w/h and the renderer size (w, h); otherwise nothing changes. |
| Viewer.Viewer.Teardown | components/viewer.tsx:215-226 | Every ref becomes null and the listener is removed; the current mesh is dropped without being disposed. |
| Viewer.Viewer.SelectFile | components/viewer.tsx:230-241 | A read starts exactly for a name ending in `.obj` (any case), recording name and size and setting loading; another name only raises the alert. |
| Viewer.Viewer.FitCamera | components/viewer.tsx:104-128 | With camera and controls, the view becomes the fit of the mesh's world box; without them nothing changes. |
| Viewer.Viewer.Install | components/viewer.tsx:265-276 | The old mesh is disposed and removed; the new mesh, under the corrected normalisation, is the scene's only model and the current model; the camera is fitted to it, and looks at the origin with near 0.04 and far 400 when the mesh has an extent. |
| Viewer.Viewer.ShowParsed | components/viewer.tsx:253-278 | With a scene, a fresh mesh of the parsed positions, under the corrected normalisation, replaces the old one; without a scene nothing but loading changes. |
| Viewer.Viewer.OnFileRead | components/viewer.tsx:244-283 | A non-string read result or a failed build raises its alert and leaves scene, current mesh and camera untouched; a success installs the parse of the text under the corrected normalisation; loading always ends. |
| ScrollRouter.NormalizePath | app/ScrollRouter.tsx:16-23 | The result is never empty; `""` gives `/`; a path with the base gives a rooted path; any other path comes back unchanged. |
| ScrollRouter.NormalizeStripsBase | app/ScrollRouter.tsx:18-20 | For a rooted q, normalising the base followed by q gives q. |
| ScrollRouter.NormalizeBaseOnly | app/ScrollRouter.tsx:18-19 | The base alone normalises to `/`. |
| ScrollRouter.NormalizeAddsSlash | app/ScrollRouter.tsx:18-20 | The base followed by an unrooted q normalises to `/` followed by q. |
| ScrollRouter.OrderNormalized | app/ScrollRouter.tsx:7-23 | Every page of the order is its own normal form. |
| ScrollRouter.IndexOf | app/ScrollRouter.tsx:55 | `indexOf` returns the first position of the element, or -1 exactly when it is absent. |
| ScrollRouter.OrderIndex | app/ScrollRouter.tsx:7-13 | The pages of the order are distinct, so each is found at its own position. |
| ScrollRouter.NextIndex | app/ScrollRouter.tsx:61-63 | The next index stays within the order and moves by at most one. |
| ScrollRouter.GoTarget | app/ScrollRouter.tsx:55-65 | A page outside the order navigates nowhere; any target is a page of the order other than the current one. |
| ScrollRouter.GoDownSteps | app/ScrollRouter.tsx:62 | Down from page i < 4 targets page i + 1. |
| ScrollRouter.GoUpSteps | app/ScrollRouter.tsx:63 | Up from page i > 0 targets page i - 1. |
| ScrollRouter.GoStopsAtEnds | app/ScrollRouter.tsx:62-64 | Up from the first page and down from the last page navigate nowhere. |
| ScrollRouter.WheelDirection | app/ScrollRouter.tsx:70-71 | abs(deltaY) < 30 is ignored; otherwise a positive delta goes down and a negative one up. |
| ScrollRouter.KeyDirection | app/ScrollRouter.tsx:75-76 | PageDown and ArrowDown go down, PageUp and ArrowUp go up, and any other key does nothing. |
| ScrollRouter.SwipeDirection | app/ScrollRouter.tsx:86-88 | dy < -50 goes down, dy > 50 goes up, and abs(dy) <= 50 does nothing. |
| ScrollRouter.Router.constructor | app/ScrollRouter.tsx:26-30 | The router starts unlocked, with no touch recorded, no timer running and nothing pushed. |
| ScrollRouter.Router.Rerender | app/ScrollRouter.tsx:26-27 | A new pathname from the router changes only the pathname. |
| ScrollRouter.Router.AnimateAndPush | app/ScrollRouter.tsx:32-42 | When locked, nothing is scheduled; otherwise the lock is taken and the push scheduled. |
| ScrollRouter.Router.ExitTimerFires | app/ScrollRouter.tsx:42-46 | The scheduled page is pushed and the release timer started, with the lock still held. |
| ScrollRouter.Router.ReleaseTimerFires | app/ScrollRouter.tsx:46-48 | The release timer drops the lock. |
| ScrollRouter.Router.Go | app/ScrollRouter.tsx:52-66 | When locked, nothing changes; otherwise exactly the page `GoTarget` names is scheduled, or nothing when it names none. |
| ScrollRouter.Router.GoMaybe | app/ScrollRouter.tsx:69-77 | The step the handlers share: no direction changes nothing, and a direction goes from the current page exactly as `Go` does. |
| ScrollRouter.Router.OnWheel | app/ScrollRouter.tsx:69-72 | A wheel event goes in its direction from the current page, or does nothing. |
| ScrollRouter.Router.OnKey | app/ScrollRouter.tsx:74-77 | A key goes in its direction from the current page, or does nothing. |
| ScrollRouter.Router.OnTouchStart | app/ScrollRouter.tsx:79-81 | The first touch's position is recorded, or cleared when there is none. |
| ScrollRouter.Router.OnTouchEnd | app/ScrollRouter.tsx:83-90 | Without a recorded start nothing happens; otherwise the swipe goes in its direction, and the start is cleared afterwards. |
| Upload.TypeAccepted | components/Uploadwidget.tsx:50-54 | A file is accepted exactly when some rule of the list matches it. |
| Upload.ExtensionRule | components/Uploadwidget.tsx:51-52 | A `.` rule matches exactly when the lower-cased name ends with the lower-cased rule. |
| Upload.AcceptListOfJoin | components/Uploadwidget.tsx:49 | Splitting on `,` and trimming returns the rules of a comma-joined list of trimmed rules. |
| Upload.MimeRulesOnly | components/Uploadwidget.tsx:50-54 | With MIME rules only, a file is accepted exactly when its type is one of them. |
| Upload.DefaultAcceptRules | components/Uploadwidget.tsx:26 | The default accept string lists image/png, image/jpeg and image/webp. |
| Upload.DefaultAcceptsImages | components/Uploadwidget.tsx:26-54 | With the default accept string, a file is accepted exactly when its MIME type is PNG, JPEG or WebP. |
| Upload.Admit | components/Uploadwidget.tsx:49-70 | The type is checked before the size; a file passes exactly when its type is accepted and its size is within the limit. |
| Upload.SizeLimitInclusive | components/Uploadwidget.tsx:64 | A file of exactly maxSizeMB·1024·1024 bytes passes, and one byte more is rejected. |
| Upload.AfterDecode | components/Uploadwidget.tsx:74-88 | The state is `ready` exactly when both dimensions are at least 256; either way it carries the file and the preview. |
| Upload.BuildBase | components/Uploadwidget.tsx:105 | `""` stays `""`; otherwise one trailing `/` is removed, and only that. |
| Upload.BuildAbs | components/Uploadwidget.tsx:106-111 | A URL starting with `http` is kept; any other becomes the base, one `/`, and the rest. |
| Upload.BuildAbsParts | components/Uploadwidget.tsx:106-111 | A relative URL made absolute starts with the base and a `/` and ends with the relative URL. |
| Upload.Absolutize | components/Uploadwidget.tsx:166-171 | A non-empty preview URL not starting with `http` becomes `BuildAbs(apiBase, url)`; an absolute, empty or missing URL leaves the reply unchanged; the other fields never change. |
| Upload.FailureMessage | components/Uploadwidget.tsx:178 | The server's non-empty error is shown; otherwise `Upload failed (status)`. |
| Upload.Round | components/Uploadwidget.tsx:153 | `Math.round` returns a whole number, the one within half a unit below or above. |
| Upload.Progress | components/Uploadwidget.tsx:153 | Progress is a whole number, and non-finite for a zero total. |
| Upload.ProgressIsPercentage | components/Uploadwidget.tsx:153 | For loaded <= total the progress lies in 0..100, and it is 100 when everything is sent. |
| Upload.FractionSent | components/Uploadwidget.tsx:153 | loaded/total lies in [0, 1] and is 1 when everything is sent. |
| Upload.Widget.constructor | components/Uploadwidget.tsx:29-36 | The widget keeps its props and starts `idle`. |
| Upload.Widget.Reset | components/Uploadwidget.tsx:38-40 | The state becomes `idle` from any state. |
| Upload.Widget.OnFiles | components/Uploadwidget.tsx:44-73 | No file changes nothing; a rejected file gives the check's error with no file or preview; an accepted file starts decoding. |
| Upload.Widget.OnImageLoad | components/Uploadwidget.tsx:74-88 | The decoded image's dimensions decide between `ready` and the low-resolution error, as `AfterDecode` states. |
| Upload.Widget.OnImageError | components/Uploadwidget.tsx:89-94 | A decode failure gives the error with no file or preview. |
| Upload.Widget.OnUpload | components/Uploadwidget.tsx:113-145 | No file gives an error; `uploading` is kept; no backend gives `done` with the stub message; otherwise `uploading` at 0 with a POST to `<base>/upload`. |
| Upload.Widget.OnProgress | components/Uploadwidget.tsx:151-158 | Only an `uploading` state with a computable length takes the new progress. |
| Upload.Widget.OnLoad | components/Uploadwidget.tsx:160-190 | A 2xx reply gives `done` with the preview made absolute; another status gives its failure message; an unreadable reply gives the unexpected-response error. |
| Upload.Widget.OnNetworkError | components/Uploadwidget.tsx:192-200 | A network error gives the error state, keeping the file and the preview. |
| TextPrompt.WordCount | components/textuploadwidget.tsx:136 | The word count is the number of maximal runs of non-white-space characters. |
| TextPrompt.WordCountZero | components/textuploadwidget.tsx:136 | The count is 0 exactly for an empty or all-white-space prompt. |
| TextPrompt.WordCountIgnoresPadding | components/textuploadwidget.tsx:136 | Leading and trailing white space do not change the count. |
| TextPrompt.WordCountOfJoin | components/textuploadwidget.tsx:136 | Words joined by single spaces are counted one each. |
| JsStrings.TrimEmptyIffAllSpace | components/textuploadwidget.tsx:25 | A trimmed prompt is empty exactly when the prompt is all white space. |
| TextPrompt.Form.constructor | components/textuploadwidget.tsx:14-16 | Both prompts start empty and there is no status. |
| TextPrompt.Form.EditPrompt | components/textuploadwidget.tsx:110 | Typing replaces the prompt and nothing else. |
| TextPrompt.Form.EditNegativePrompt | components/textuploadwidget.tsx:165 | Typing replaces the negative prompt and nothing else. |
| TextPrompt.Form.Clear | components/textuploadwidget.tsx:18-22 | Both prompts become empty, the status is cleared, and the counter shows 0. |
| TextPrompt.Form.Generate | components/textuploadwidget.tsx:24-32 | A blank prompt sets the status that asks for a prompt; otherwise the request-prepared status is set; neither prompt changes. |
| PillNav.ExternalIsNotAnchor | components/PillNav.tsx:115-116 | An external link is never an anchor. |
| PillNav.LinkKindOf | components/PillNav.tsx:169 | An item renders as a plain link exactly when it is external or an anchor. |
| PillNav.SitePathIsRouted | components/PillNav.tsx:169 | A site path such as `/gallery` renders as a routed link. |
| PillNav.AccessibleName | components/PillNav.tsx:171 | The accessible name is the non-empty aria label, or the caption. |
| PillNav.DesktopPills | components/PillNav.tsx:139-181 | One pill per item, in order, whose kind follows the link rule; exactly the items whose href equals the active href are active. |
| PillNav.MobileEntries | components/PillNav.tsx:201-214 | One mobile entry per item, in order, under the same link rule as the desktop list. |
| PillNav.ResolvedPillTextColor | components/PillNav.tsx:21 | The pill text colour is the given colour when defined, and the base colour otherwise. |
| PillNav.MobileMenu.constructor | components/PillNav.tsx:22 | The open flag starts false. |
| PillNav.MobileMenu.Toggle | components/PillNav.tsx:98-113 | The toggle negates the open flag and returns the new value; it counts one invocation of the optional `onMobileMenuClick` callback, which the app never supplies, so in practice nothing is called. |
| PillNav.MobileMenu.SelectEntry | components/PillNav.tsx:208-210 | Choosing a mobile entry clears the open flag and invokes no callback. |

## Left out

- Rendering, lights, grid, shadows and the animation loop (viewer.tsx 157-213) are scene construction with nothing to decide. The render loop is not cancelled at teardown; the model has no loop.
- Framing.Fit and Viewer.Viewer.FitCamera: the fit ends with `controls.update()` (viewer.tsx:127), and damping is on (viewer.tsx:189-190). A pan or rotation still decaying from an earlier gesture therefore also moves the target and the camera by the damping factor times the delta left over. The model leaves both exactly as the fit sets them, as they are when no gesture is in progress.
- `computeVertexNormals` (viewer.tsx:87) is float geometry inside three.js.
- The viewer builds its arrays with JavaScript doubles but stores the buffer as a `Float32Array`. The model keeps the values as read and does not model the rounding to 32 bits.
- `formatFileSize` (viewer.tsx:27-35) is logarithm and `toFixed` formatting. The model records the file size in bytes.
- `parseFloat` is a parameter of the parser. `tan(fov/2)` and `Vector3.normalize` are parameters of the viewer (positive tangent). `Framing.FitKeepsDirection` states its promise only for a `normalize` that scales the old offset to unit length; a camera sitting on its target (zero offset) is not covered.
- The viewer's `scene` lists the models it holds. The four lights and the grid added at viewer.tsx:166-186 are not recorded.
- Viewer.Mesh.WorldBounds: the mesh's world box is the local box mapped through its transform. The model does not prove that this equals the box of the moved vertices that `Box3.setFromObject` computes.
- Viewer.Mesh.CenterAndScale: the centring is stated for a mesh whose transform was the identity, the only case the viewer produces.
- CenterAndScale (Viewer.Mesh.CenterAndScale): sets the corrected normalisation `Framing.Normalize`, not the transform viewer.tsx:98-102 computes (`Framing.NormalizeAsWritten`), whose effect is shown separately under Findings.
- Install (Viewer.Viewer.Install): installs the mesh under the corrected normalisation; with the code's transform the target would be (k - 1) times the box centre rather than the origin, and a mesh with no extent would get scale Infinity.
- ShowParsed (Viewer.Viewer.ShowParsed): builds and installs the mesh under the corrected normalisation, not the code's transform.
- OnFileRead (Viewer.Viewer.OnFileRead): its success path installs the mesh under the corrected normalisation, not the code's transform.
- Viewer.Viewer.OnFileRead: the `None` read result is the `typeof text !== "string"` branch of `onload`. A FileReader failure fires `error`, for which the code sets no handler, so `loading` stays true; the model has no such event.
- Viewer.Viewer.OnFileRead: an exception raised while parsing or building the mesh is the `buildFails` input, taken before any state changes. The code can only throw before the swap, so no other case arises.
- The `if (mesh.geometry)` guard and array materials in `disposeMesh` (viewer.tsx:131-134): every mesh the viewer builds has geometry and one material. The model's meshes carry any number of materials and dispose them all.
- The FileReader, the image decoder, `URL.createObjectURL` and the XHR transport are asynchronous I/O. Their outcomes are inputs to the handler methods (read text or failure, image size or error, status and reply).
- JSON parsing of the upload reply: the reply is a `Payload` of the three fields the widget reads, or none when the text does not parse. Other fields and a literal `null` reply are not distinguished.
- Upload.Widget.constructor: `maxSizeMB` is a whole number of megabytes; fractional limits are not modelled.
- Upload.Widget.OnLoad: a truthy `preview_url` that is not a string (a number, an object) passes String(...) at Uploadwidget.tsx:168 but makes the `startsWith` call inside `buildAbs` throw, which the code reports as an unexpected response; `Payload` holds only strings, so this case is not represented.
- Upload.Widget.OnLoad: the captured file and preview overwrite whatever state is current, as the code does. Stale replies are not modelled because the code has none.
- ScrollRouter: the `setTimeout` delays (320 ms and 80 ms), the `classList` edits and the router push are side effects. The two timers are explicit events (`ExitTimerFires`, `ReleaseTimerFires`); pushes are recorded in `pushed`.
- ScrollRouter.Router.OnWheel: event values are real numbers; NaN deltas are not modelled.
- PillNav layout, the hover timelines and the logo spin (PillNav.tsx:34-96) are gsap animation and float geometry. `onMobileMenuClick` is counted, not run.
- PillNav.MobileMenu.SelectEntry: the menu is shown and hidden only by the gsap tweens inside `toggleMobileMenu` (PillNav.tsx:98-113). An entry click (PillNav.tsx:208, 210) only clears the flag, so the model's flag does not say what is on screen: after an entry click the menu and the crossed hamburger stay visible until the next hamburger tap, which sets the flag back to true. The visibility and the hamburger's rotation are not modelled.
- The `console.log` payload in `handleGenerate` (textuploadwidget.tsx:34-37) is output only.
- Viewer.Viewer.SelectFile and Upload.ExtensionRule: `toLowerCase` is modelled over ASCII letters only. JavaScript also lower-cases other letters (the Kelvin sign U+212A becomes `k`), so a name or rule using them may be judged differently.
- JsNumbers: `NonFinite` stands for NaN and both infinities together. IEEE results such as x / Infinity = 0 are therefore not modelled.
- The remaining files (pages, layout, navbar, section components, `next.config.ts`) are static markup or build configuration.

## Findings

| source | as written | input that shows it | evidently intended | confidence | as-written member | corrected member |
|---|---|---|---|---|---|---|
| components/viewer.tsx:98-102 | The position is set to minus the box centre c, and then the scale is multiplied by k = 4/maxDim. three.js scales before it translates, so the box centre moves to (k - 1)c rather than to the origin. | The vertices (10,10,10), (12,10,10), (10,12,12): the centre is (11,11,11), maxDim is 2, k is 2, and the mesh ends centred at (11,11,11). | The mesh is centred at the origin with largest extent 4, so the offset is scaled too: position = -k·c. | high, not executed | Framing.AsWrittenCounterexample | Framing.NormalizedBoxIsCentred |
| components/viewer.tsx:100-102 | A file whose vertices all coincide (maxDim = 0) gets the scale 4/0 = Infinity, and the mesh's box becomes non-finite. | The single triangle with all three corners at (1,1,1). | A mesh with no extent is only centred, and its scale is left alone. | medium, not executed | Framing.AsWrittenDegenerate | Framing.NormalizeDegenerate |
