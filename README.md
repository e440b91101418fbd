# place — a Dafny model

`place` is a collaborative pixel canvas. Browsers show a shared image through
a WebGL window that can be panned and zoomed. They paint single pixels, and
every placement is relayed to every other browser. The repository holds three
generations of the system:

- a WebSocket server in Go (`server.go`, and the older `ws/server.go` with its
  3-byte `placeImage`), with the browser client `web/root/place.js`, the
  class-style GL window `web/root/glwindow.js` and its GUI `web/root/main.js`;
- the earlier closure-style client (`root/js/place.js`, `root/js/glwindow.js`,
  `root/js/main.js`, and `web/root/js/main.js`, which drives the same client);
- the first, polling design: the JSON/long-poll `PlaceServer` of `place.go`
  over a 4-byte `rgbImage`, the binary polling client
  `web/root/js/old/place.js` and its scroll-based window
  `web/root/js/old/glwindow.js`.

There are also two offline cleanup programs, `cmd/cleanup/main.go` (despeckle)
and `cmd/cleanup/cleanup.go` (three passes). They rewrite a canvas in place to
remove stray pixels.

The model has one module per core source file, plus shared modules:

| module | file | models |
|---|---|---|
| `Common` | common.dfy | `Option`, bytes, `InBounds`, 2^32 |
| `BigEndian` | bigendian.dfy | `DataView.setUint32`/`getUint32` and Go's `binary.BigEndian.Uint32` |
| `PixelWire` | pixelwire.dfy | the 11-byte pixel event (x, y big-endian, then RGB) |
| `CanvasSurface` | surface.dfy | the calls a client makes on its GL window (texture loads, texel paints) |
| `SyncPlace` | syncplace.dfy | `web/root/place.js` |
| `QueuedPlace` | queuedplace.dfy | `root/js/place.js` |
| `BatchPlace` | batchplace.dfy | `web/root/js/old/place.js` |
| `ViewMath` | viewmath.dfy | the quad shader and `click` shared by both quad windows |
| `RgbaPad` | rgbapad.dfy | the 4-byte texel both quad windows upload |
| `Viewport` | viewport.dfy | `web/root/glwindow.js` |
| `ClosureViewport` | closureviewport.dfy | `root/js/glwindow.js` |
| `OldViewport` | oldviewport.dfy | `web/root/js/old/glwindow.js` |
| `ColourField` | colourfield.dfy | the colour field and picker code the three GUIs share |
| `WebGui`, `QueuedGui`, `RootGui` | webgui.dfy, queuedgui.dfy, rootgui.dfy | `web/root/main.js`, `web/root/js/main.js`, `root/js/main.js` |
| `SlotTable` | slottable.dfy | the client-slot table and `getConnIndex` of both socket servers |
| `PixelServer` | pixelserver.dfy | `server.go` |
| `WsServer` | wsserver.dfy | `ws/server.go` |
| `Raster` | raster.dfy | pixel offsets and Go's `copy` into a byte slice |
| `PlaceImage`, `RgbImage` | placeimage.dfy, rgbimage.dfy | `placeimage.go`, `rgbimage.go` |
| `HistoryServer` | historyserver.dfy | `place.go` |
| `CleanImage` | cleanimage.dfy | the `draw.Image` of the cleanup programs and their in-place scans |
| `Despeckle`, `Cleanup` | despeckle.dfy, cleanup.dfy | `cmd/cleanup/main.go`, `cmd/cleanup/cleanup.go` |
| `Protocol` | protocol.dfy | the client/server WebSocket protocol taken together |

The server, image and GUI objects are classes whose methods update fields as
the source does. The wire formats, colour parsing and viewport arithmetic are
pure functions. Several values come in as parameters:

- what the GPU returns: the texel `getColor` reads (the result of `click` is the window's own `ClickAt` of the mouse position, except in `QueuedGui`, see below);
- the outcome of a WebSocket upgrade or a JSON/base64 decode;
- the rate limiter's verdict.

A PNG encoding is represented by the pixels it encodes. Viewport arithmetic is
over `real` numbers.

## Model

| member | source | states |
|---|---|---|
| BigEndian.Uint32Bytes | web/root/place.js:147-150 | `setUint32` writes exactly four bytes |
| BigEndian.ReadUint32 | web/root/place.js:152-155 | `getUint32` yields a value in [0, 2^32) |
| BigEndian.ReadWrite | web/root/place.js:147-155 | reading back a written value gives it modulo 2^32 |
| BigEndian.WriteRead | web/root/place.js:147-155 | writing the value read reproduces the four bytes |
| PixelWire.EncodeLayout | web/root/place.js:106-111 | an event is 11 bytes: x big-endian, y big-endian, then colour bytes 0-2 |
| PixelWire.EncodeEvent | web/root/place.js:106-111 | the 11-byte buffer `setPixel` sends; its layout is stated by `EncodeLayout`, its inverse by `DecodeEncode` and `RoundTrip` |
| PixelWire.DecodeEncode | web/root/place.js:121-126 | decoding an encoded event gives x and y modulo 2^32 and the three colour bytes |
| PixelWire.DecodeEvent | web/root/place.js:121-126 | the client's reading of a message: none below 8 bytes (a `RangeError`), otherwise x and y at bytes 0 and 4 and the rest as colour; `DecodeEncode` and `EncodeDecode` relate it to `EncodeEvent` |
| PixelWire.RoundTrip | web/root/place.js:121-126 | for coordinates below 2^32 and an RGB colour, decode inverts encode exactly |
| PixelWire.EncodeDecode | web/root/place.js:121-126 | every 11-byte message is the encoding of what it decodes to |
| PixelWire.BuildEvent | web/root/place.js:106-111 | the byte-filling loop builds exactly the encoding |
| CanvasSurface.Paints | web/root/glwindow.js:106-113 | one paint call per event, in order, carrying its pixel and colour |
| CanvasSurface.PaintsSnoc | web/root/glwindow.js:106-113 | one more event adds exactly one more paint call at the end |
| CanvasSurface.VisibleAfterLoad | web/root/glwindow.js:85-92 | every paint after a texture load shows, in order |
| CanvasSurface.Visible | web/root/glwindow.js:85-111 | what the canvas shows: the paints after the last texture load, in order; `VisibleAfterLoad`, `LoadHidesEarlierPaints` and `NoTextureNoPaint` state it |
| CanvasSurface.LoadHidesEarlierPaints | web/root/glwindow.js:85-92 | a texture load discards every earlier paint |
| CanvasSurface.NoTextureNoPaint | web/root/glwindow.js:106-113 | paints made before any texture exists have no visible effect |
| SyncPlace.PermissionFrom | web/root/place.js:75-77 | the first message grants drawing exactly when its byte 0 is 1; an empty one sets nothing |
| SyncPlace.Place.constructor | web/root/place.js:9-16 | a new client is not loaded, has no socket and no permission yet |
| SyncPlace.Place.Connect | web/root/place.js:70-71 | a fresh socket is CONNECTING |
| SyncPlace.Place.Opened | web/root/place.js:70-71 | the handshake takes a CONNECTING socket to OPEN and leaves any other state alone |
| SyncPlace.Place.SocketMessage | web/root/place.js:73-84 | the first message only sets the permission and paints nothing; every later one keeps the permission and goes to the pixel handler |
| SyncPlace.Place.PaintFor | web/root/place.js:121-129 | an event paints nothing before the snapshot is loaded; afterwards it paints the big-endian x and y of bytes 0-7 with the bytes from 8 on |
| SyncPlace.Place.HandleSocketSetPixel | web/root/place.js:121-129 | the surface grows by exactly the paint of that event, so events before the snapshot are dropped, not queued |
| SyncPlace.Place.SocketClose | web/root/place.js:86-88 | after a close the socket is null |
| SyncPlace.Place.SocketError | web/root/place.js:90-94 | an error closes the socket (CLOSING) |
| SyncPlace.Place.SnapshotLoaded | web/root/place.js:44-47 | the snapshot goes on the texture and only then does the client count as loaded |
| SyncPlace.Place.SetPixel | web/root/place.js:101-119 | no permission: nothing; permission and an open socket: the 11-byte event is sent, then painted locally; any other socket state: nothing sent, nothing painted |
| SyncPlace.BootstrapScenario | web/root/place.js:37-50 | a worked run: an event that arrives before the snapshot leaves no trace, and one after it shows on the canvas |
| SyncPlace.ClosedScenario | web/root/place.js:86-88 | a worked run: a client allowed to draw sends nothing once its socket has closed |
| QueuedPlace.Place.constructor | root/js/place.js:1-3 | a new client has an empty queue, no socket and nothing sent or painted |
| QueuedPlace.Place.Connect | root/js/place.js:28-29 | a fresh socket is CONNECTING |
| QueuedPlace.Place.Opened | root/js/place.js:28-29 | the handshake takes a CONNECTING socket to OPEN and leaves any other state alone |
| QueuedPlace.Place.SocketClose | root/js/place.js:34-36 | after a close the socket is null |
| QueuedPlace.Place.HandleResponse | root/js/place.js:58-68 | an event is queued while the queue exists and painted directly after it is gone; a short message (getUint32 throws) changes nothing |
| QueuedPlace.Place.Put | root/js/place.js:42-57 | with an open socket the encoded event is sent and painted locally; otherwise nothing is sent or painted |
| QueuedPlace.Place.SnapshotAsWritten | root/js/place.js:18-25 | as written: the queue is dropped only when it is already empty, and no queued event is applied |
| QueuedPlace.Place.Snapshot | root/js/place.js:18-25 | corrected: every queued event is painted, in order, and the queue is dropped |
| QueuedPlace.Place.Drain | root/js/place.js:20-25 | the drain paints the queued events in arrival order and ends with no queue |
| QueuedPlace.Place.ImageOnload | root/js/place.js:71-74 | the pending snapshot becomes the texture |
| QueuedPlace.Place.SnapshotThenDrain | root/js/place.js:18-25 | corrected bootstrap: the snapshot is loaded and then every queued event shows on it |
| QueuedPlace.QueueTwo | root/js/place.js:58-68 | events that arrive before the snapshot are queued in order and none is painted |
| QueuedPlace.BootstrapScenario | root/js/place.js:18-25 | a worked run of the corrected bootstrap: two events queued before the snapshot and one after it all show, in arrival order |
| QueuedPlace.EarlyDrainScenario | root/js/place.js:18-25 | a worked run: draining before `onload` paints the queued events onto the old texture, which the snapshot then hides |
| QueuedPlace.UnshiftScenario | root/js/place.js:20-25 | a worked run of the snapshot step as written: the queue is never discarded, so every later event stays queued and only the snapshot shows |
| BatchPlace.RecordAt | web/root/js/old/place.js:44-48 | record i is read at byte 5 + 11i: x, y, then up to three colour bytes |
| BatchPlace.Records | web/root/js/old/place.js:44-52 | the first n records, in order |
| BatchPlace.RecordsAt | web/root/js/old/place.js:44-48 | element i of the records is record i |
| BatchPlace.EventCount | web/root/js/old/place.js:43-44 | the loop runs for the records that still hold x and y |
| BatchPlace.WholeRecords | web/root/js/old/place.js:42-52 | a type-1 response of 5 + 11k bytes paints exactly its k records, as laid out |
| BatchPlace.NoEventsUnlessType1 | web/root/js/old/place.js:38-54 | an image response or an unknown type paints no event |
| BatchPlace.BatchEvents | web/root/js/old/place.js:38-54 | the events a response paints: the records up to the count for type 1, none otherwise; `BatchRoundTrip` and `NoEventsUnlessType1` state it |
| BatchPlace.EncodeAll | web/root/js/old/place.js:25-31 | the encodings of a list of events, one after another, 11 bytes each |
| BatchPlace.EncodeAllAt | web/root/js/old/place.js:25-31 | event i occupies bytes 11i to 11i + 10 |
| BatchPlace.BatchBytes | web/root/js/old/place.js:36-43 | a batch response is the 4-byte id, type 1 and 11 bytes per event |
| BatchPlace.BatchRoundTrip | web/root/js/old/place.js:36-52 | the client reads back from a batch the id modulo 2^32 and exactly the events |
| BatchPlace.RecordOfBatch | web/root/js/old/place.js:44-48 | record i of a batch is its event i |
| BatchPlace.BatchSlice | web/root/js/old/place.js:44-48 | the 11 bytes of record i of a batch are the encoding of its event i |
| BatchPlace.RecordOfSlice | web/root/js/old/place.js:44-48 | a record whose bytes encode a canonical event reads back as that event |
| BatchPlace.LoopStops | web/root/js/old/place.js:44-46 | the loop stops at the record count, by its bound or by a throw |
| BatchPlace.LoopStep | web/root/js/old/place.js:44-47 | a record that still holds x and y is below the record count |
| BatchPlace.PaintsNextRecord | web/root/js/old/place.js:44-51 | painting one more record appends exactly its paint |
| BatchPlace.Place.constructor | web/root/js/old/place.js:6 | the client starts at event id -1 with nothing painted or sent |
| BatchPlace.Place.HandleResponse | web/root/js/old/place.js:36-55 | the id is taken from bytes 0-3; type 0 hands the rest to `setImage`; the painted events are exactly those of the batch |
| BatchPlace.Place.PaintRecords | web/root/js/old/place.js:44-52 | the loop paints the records up to the record count, in order |
| BatchPlace.Place.PaintRecord | web/root/js/old/place.js:45-51 | one round of the loop appends exactly the paint of record i |
| BatchPlace.Place.ImageOnload | web/root/js/old/place.js:58-61 | the pending snapshot becomes the texture |
| BatchPlace.Place.Put | web/root/js/old/place.js:25-35 | the request body is the 11-byte encoding of the pixel |
| ViewMath.Clamp | web/root/glwindow.js:133-138 | the zoom ends in [lo, hi]: unchanged inside, lo below, hi above |
| ViewMath.ClampIdempotent | web/root/glwindow.js:133-138 | setting a zoom already set changes nothing |
| ViewMath.ShaderAffine | web/root/glwindow.js:14-20 | the shader maps the quad affinely, from the low edge of `click`'s box to its high edge |
| ViewMath.ShaderAxis | web/root/glwindow.js:14-20 | one axis of the vertex shader's `((vert * tex_scale - cam) * zoom) / view_scale + 0.5`; `ShaderAffine` and `ClickInvertsShader` state what it does |
| ViewMath.LowEdge | web/root/glwindow.js:157-160 | the low corner `a` of the box `click` tests; `EdgesAreQuadCorners` shows it is the shader's image of the quad's low edge |
| ViewMath.HighEdge | web/root/glwindow.js:162-165 | the high corner `b`; `EdgesAreQuadCorners` shows it is the shader's image of the quad's high edge |
| ViewMath.ClickAxis | web/root/glwindow.js:171-174 | the remap of one axis from the box to the texture; `AxisInverse` shows it undoes the shader |
| ViewMath.EdgesAreQuadCorners | web/root/glwindow.js:157-165 | the box `click` tests is the shader's image of the quad's edges |
| ViewMath.AxisInverse | web/root/glwindow.js:153-177 | on one axis, a point the shader draws is inside the box iff it is on the quad, and `click` maps it back to its texture coordinate |
| ViewMath.Click | web/root/glwindow.js:153-177 | `click`: a miss outside the box, otherwise the remapped point; `ClickInvertsShader` and `ClickRange` state its meaning |
| ViewMath.AxisOnto | web/root/glwindow.js:171-174 | every point of the box is the shader's image of a point of the quad |
| ViewMath.AxisHit | web/root/glwindow.js:153-177 | on one axis, the point where the shader draws a quad point lies in the box and remaps to its texture coordinate |
| ViewMath.AxisWithin | web/root/glwindow.js:171-174 | on one axis, every point of the box remaps into [0, tex] |
| ViewMath.ClickInvertsShader | web/root/glwindow.js:153-177 | with positive scales, `click` at the point where vertex v is drawn returns v's texture coordinates |
| ViewMath.ClickRange | web/root/glwindow.js:153-177 | with positive scales, `click` never gives NaN, every hit lies on the texture, and it misses exactly outside the box |
| ViewMath.CornerAndCentre | web/root/glwindow.js:167-169 | a 100 by 100 texture filling a 100 by 100 view: the corner hits (0, 0) and the centre (50, 50) |
| ViewMath.NoTextureNoHit | web/root/glwindow.js:61 | before any texture, `click` never yields a point |
| ViewMath.Truncate | web/root/place.js:147-150 | a coordinate becomes the integer toward zero, within 1 of it |
| ViewMath.TargetPixel | web/root/main.js:186-192 | NaN coordinates become pixel 0; a non-negative hit becomes its floor |
| ViewMath.HitPixelInRange | web/root/glwindow.js:153-177 | a hit names a pixel of the texture, or one just past its far edge |
| ViewMath.ZoomInOut | web/root/main.js:200-210 | zooming in by f and out by f restores the zoom while the first step stays in range |
| ViewMath.ZoomOutIn | web/root/main.js:200-210 | zooming out by f and in by f restores the zoom while the first step stays in range |
| ViewMath.ZoomMonotone | web/root/main.js:200-210 | zooming in never lowers the zoom and zooming out never raises it |
| RgbaPad.PadRGBA | web/root/glwindow.js:106-111 | the texel takes the colour's first four bytes, missing ones 0, alpha 255 unless a fourth byte is given |
| RgbaPad.TexelByte | web/root/glwindow.js:106-111 | byte i of the uploaded texel: colour byte i when present, 255 for alpha, otherwise 0; `PadRGBA` is proved to fill the array with it |
| RgbaPad.RgbIsOpaque | web/root/glwindow.js:106-111 | an RGB colour gives the opaque texel of that colour |
| Viewport.FitSpansLongerSide | web/root/glwindow.js:98-102 | at the fitted zoom the image spans the canvas exactly along its longer side |
| Viewport.FitZoom | web/root/glwindow.js:98-102 | the fit zoom `setTexture` computes from the canvas and image sizes; `FitSpansLongerSide` states what it achieves |
| Viewport.GLWindow.constructor | web/root/glwindow.js:53-73 | no texture, camera at the origin, zoom 1, canvas at the client size |
| Viewport.GLWindow.UpdateViewScale | web/root/glwindow.js:144-151 | the canvas takes the client size |
| Viewport.GLWindow.SetZoom | web/root/glwindow.js:133-138 | the zoom is the request clamped to [0.01, 40] |
| Viewport.GLWindow.Move | web/root/glwindow.js:127-131 | the camera moves against the drag, by the drag over the zoom |
| Viewport.GLWindow.Scroll | web/root/glwindow.js:122-125 | the camera takes the scroll offsets |
| Viewport.GLWindow.SetTexture | web/root/glwindow.js:85-104 | the texture size is the image size and the zoom is the fitted zoom, clamped |
| Viewport.GLWindow.SetPixelColor | web/root/glwindow.js:106-113 | exactly one texel upload is added: that pixel, the padded RGBA |
| Viewport.GLWindow.ClickAt | web/root/glwindow.js:153-177 | with a texture and a laid-out canvas, `click` is never NaN and every hit lies on the texture |
| ClosureViewport.GLWindow.constructor | root/js/glwindow.js:36-38 | no texture, camera at the origin, zoom 1, nothing uploaded |
| ClosureViewport.GLWindow.SetZoom | root/js/glwindow.js:83-88 | the zoom is the request clamped to [0.01, 20] |
| ClosureViewport.GLWindow.Move | root/js/glwindow.js:78-82 | the camera moves against the drag, by the drag over the zoom |
| ClosureViewport.GLWindow.Scroll | root/js/glwindow.js:74-77 | the camera takes the scroll offsets |
| ClosureViewport.GLWindow.SetTexture | root/js/glwindow.js:45-59 | the texture size is the image size; a zoom already in range is kept |
| ClosureViewport.GLWindow.PlacePixel | root/js/glwindow.js:60-67 | exactly one texel upload is added: that pixel, the padded RGBA |
| ClosureViewport.GLWindow.ClickAt | root/js/glwindow.js:100-122 | with a texture and a laid-out target, `click` is never NaN and every hit lies on the texture |
| OldViewport.CalcFit | web/root/js/old/glwindow.js:129-135 | the fit is the view height, or the view width, over the texture height (both branches divide by the height); undefined for a zero height |
| OldViewport.CalcFitAgainstFitZoom | web/root/js/old/glwindow.js:129-135 | on a square texture `calcFit` fits the shorter side of the view, the later window's fit the longer, and the two agree exactly on a square view |
| OldViewport.ScaleFactor | web/root/js/old/glwindow.js:156-161 | the `scale` uniform along one axis; `UniformsDrawTexCoordsAtScreen` states what it draws |
| OldViewport.TexCoord | web/root/js/old/glwindow.js:85-90 | `toTexCoords` along one axis; `ScreenOfTex` shows the corrected `toScreenCoords` inverts it |
| OldViewport.ScreenCoordAsWritten | web/root/js/old/glwindow.js:91-96 | `toScreenCoords` as written; `ScreenOfTexAsWritten` and `ScreenOfTexCounterexample` show it does not invert `toTexCoords` |
| OldViewport.ScreenCoord | web/root/js/old/glwindow.js:91-96 | corrected `toScreenCoords`, with the camera scaled by the view; `ScreenCoordIsShader` and `ScreenOfTex` state it |
| OldViewport.ScreenCoordIsShader | web/root/js/old/glwindow.js:1-13 | corrected `toScreenCoords` is where the shader draws a texture point |
| OldViewport.ScreenOfTex | web/root/js/old/glwindow.js:85-96 | corrected `toScreenCoords` inverts `toTexCoords` for every camera position |
| OldViewport.ScreenOfTexAsWritten | web/root/js/old/glwindow.js:91-96 | as written, the round trip is off by cam/view - cam, and exact only with the camera at 0 |
| OldViewport.ScreenOfTexCounterexample | web/root/js/old/glwindow.js:93-94 | a 100-pixel view scrolled by 10: the origin comes back as -9.9 |
| OldViewport.GLWindow.ScaleNow | web/root/js/old/glwindow.js:156-161 | the `scale` uniform exists only for a non-zero view and texture height |
| OldViewport.GLWindow.constructor | web/root/js/old/glwindow.js:32-35 | zero scales, camera at the origin, zoom 100 |
| OldViewport.GLWindow.UpdateScale | web/root/js/old/glwindow.js:156-161 | the `scale` uniform is recomputed from the current state |
| OldViewport.GLWindow.SetZoom | web/root/js/old/glwindow.js:73-81 | the zoom percentage is clamped to [1, 2000] and the scale uniform recomputed |
| OldViewport.GLWindow.Scroll | web/root/js/old/glwindow.js:68-72 | the camera takes the scroll offsets and the `cam` uniform is camera over view |
| OldViewport.GLWindow.UpdateViewScale | web/root/js/old/glwindow.js:97-106 | the view takes the client size and the scale uniform is recomputed |
| OldViewport.GLWindow.SetTexture | web/root/js/old/glwindow.js:46-56 | the texture size is the image size, then the view is updated |
| OldViewport.UniformsDrawTexCoordsAtScreen | web/root/js/old/glwindow.js:156-161 | with the uniforms set from the state, the shader draws `toTexCoords(v)` back at v |
| ColourField.UpperString | web/root/main.js:182 | uppercasing keeps the length and changes only letters |
| ColourField.HexFilter | web/root/main.js:157 | the filter yields only uppercase hex digits, no more than the input |
| ColourField.HexFilterConcat | web/root/main.js:157 | the filter works character by character, keeping input order |
| ColourField.HexFilterKeepsUpperHex | web/root/main.js:157 | uppercase hex digits pass through unchanged |
| ColourField.Normalized | web/root/main.js:157-161 | six uppercase digits: the first six filtered digits, padded with '0' |
| ColourField.NormalizeHex | web/root/main.js:158-161 | the truncate-and-pad loop gives exactly the normalised digits |
| ColourField.DigitValue | web/root/main.js:162-164 | a hex digit's value is below 16 |
| ColourField.ParseColour | web/root/main.js:162-164 | byte i is 16 times the value of digit 2i plus the value of digit 2i + 1 |
| ColourField.ParsePair | web/root/main.js:162-164 | `parseInt` of two hex digits; `ParseUpperDigits` shows it reads back the byte the picker wrote |
| ColourField.NormalizeHashed | web/root/main.js:165-166 | the written-back '#' plus six digits normalises to those digits |
| ColourField.NormalizeIdempotent | web/root/main.js:156-168 | normalising the written-back field changes nothing |
| ColourField.LowerDigit | web/root/main.js:178 | `toString(16)` gives a hex digit whose uppercase is the upper digit |
| ColourField.UpperDigit | web/root/main.js:182 | the uppercase digit has the given value |
| ColourField.ByteToString16 | web/root/main.js:178 | a byte prints with one digit below 16 and two otherwise |
| ColourField.Pairs | web/root/main.js:176-181 | two digits per byte, padded with a leading '0' |
| ColourField.FormatPicked | web/root/main.js:176-181 | the picker loop builds '#' plus the pairs |
| ColourField.FormatStep | web/root/main.js:176-181 | one round of the picker loop appends exactly the two digits of the next byte |
| ColourField.PaddedDigits | web/root/main.js:178-179 | `toString(16)` padded with '0' gives the byte's high and low digits |
| ColourField.UpperPairs | web/root/main.js:182 | the uppercased pairs are six uppercase digits of the colour |
| ColourField.UpperHash | web/root/main.js:182 | uppercasing leaves the '#' alone |
| ColourField.ParseUpperDigits | web/root/main.js:162-164 | parsing a byte's two uppercase digits gives the byte back |
| ColourField.PickedRoundTrip | web/root/main.js:174-184 | editing the field the picker wrote gives back the picked colour |
| ColourField.EditField | web/root/main.js:156-168 | the field becomes '#' plus the normalised digits and the colour their parse |
| ColourField.EditFieldTwice | web/root/main.js:156-168 | a second edit changes neither the field nor the colour |
| ColourField.PickField | web/root/main.js:176-182 | the picked field is '#' plus the uppercased pairs |
| WebGui.Gui.constructor | web/root/main.js:13-20 | black selected, no drag, last position at the origin |
| WebGui.Gui.FieldChanged | web/root/main.js:156-168 | the field is normalised and the colour parsed from it |
| WebGui.Gui.PickColor | web/root/main.js:174-184 | a miss changes nothing; a hit selects the texel and shows it in uppercase hex |
| WebGui.Gui.DrawPixel | web/root/main.js:186-198 | reports a draw exactly for a hit whose texel differs from the selected colour, and then calls `setPixel` at the target pixel |
| WebGui.Gui.ZoomIn | web/root/main.js:200-204 | the zoom is multiplied by the factor, then clamped |
| WebGui.Gui.ZoomOut | web/root/main.js:206-210 | the zoom is divided by the factor, then clamped |
| WebGui.Gui.KeyDown | web/root/main.js:29-42 | '-' zooms out and '=' zooms in by 1.2; other keys change nothing |
| WebGui.Gui.Wheel | web/root/main.js:44-53 | scrolling down divides the zoom by 1.05, anything else multiplies |
| WebGui.Gui.MouseDown | web/root/main.js:68-84 | left starts a drag; middle, and right with ctrl, pick: a hit takes the texel as colour and shows it in the field, a miss changes neither; right without ctrl draws the selected colour at the target pixel when the texel differs, through `setPixel`; nothing else sends or paints |
| WebGui.Gui.MouseUp | web/root/main.js:86-89 | the drag ends |
| WebGui.Gui.MouseMove | web/root/main.js:91-99 | while dragging, the camera follows the mouse; the last position is always updated |
| QueuedGui.Gui.constructor | web/root/js/main.js:7 | black selected, no drag, last position at the origin |
| QueuedGui.Gui.FieldChanged | web/root/js/main.js:139-151 | the field is normalised and the colour parsed from it |
| QueuedGui.Gui.PickColor | web/root/js/main.js:59-69 | a miss changes nothing; a hit selects the texel and shows it in uppercase hex |
| QueuedGui.Gui.DrawPixel | web/root/js/main.js:71-82 | a hit on a texel of another colour puts the selected colour at the target pixel; anything else sends nothing |
| QueuedGui.Gui.ZoomIn | web/root/js/main.js:9-13 | the zoom is multiplied by 1.2, then clamped |
| QueuedGui.Gui.ZoomOut | web/root/js/main.js:15-19 | the zoom is divided by 1.2, then clamped |
| QueuedGui.Gui.KeyDown | web/root/js/main.js:21-34 | '-' zooms out and '=' zooms in; other keys change nothing |
| QueuedGui.Gui.Wheel | web/root/js/main.js:36-45 | scrolling down divides the zoom by 1.05, anything else multiplies |
| QueuedGui.Gui.MouseDown | web/root/js/main.js:85-101 | left starts a drag; middle, and right with ctrl, pick: a hit takes the texel as colour and shows it in the field, a miss changes neither; right without ctrl puts the selected colour at the target pixel when the texel differs, sent and painted only over an open socket; nothing else sends or paints |
| QueuedGui.Gui.MouseUp | web/root/js/main.js:102-105 | the drag ends |
| QueuedGui.Gui.MouseMove | web/root/js/main.js:107-115 | while dragging, the camera follows the mouse; the last position is always updated |
| RootGui.Gui.constructor | root/js/main.js:5-6 | black selected, mouse not down, last position at the origin |
| RootGui.Gui.FieldChanged | root/js/main.js:95-107 | the field is normalised and the colour parsed from it |
| RootGui.Gui.Step | root/js/main.js:18-31 | one zoom step multiplies or divides by the factor, then clamps |
| RootGui.Gui.Wheel | root/js/main.js:7-16 | scrolling down divides the zoom by 1.05, anything else multiplies |
| RootGui.Gui.KeyDown | root/js/main.js:17-33 | '-' zooms out and '=' zooms in by 1.2; other keys change nothing |
| RootGui.Gui.GestureEnd | root/js/main.js:34-47 | a pinch below 1 zooms out by 1.1, above 1 zooms in, exactly 1 does nothing |
| RootGui.Gui.MouseDown | root/js/main.js:53-57 | only the left button sets the mouse down |
| RootGui.Gui.MouseUp | root/js/main.js:59-80 | left ends the drag; middle or ctrl-right on a hit picks; plain right on a hit puts the colour, whatever is there |
| RootGui.Gui.MouseMove | root/js/main.js:82-90 | while the mouse is down, the camera follows the mouse; the last position is always updated |
| SlotTable.Occupied | server.go:84-92 | the client count is at most the number of slots |
| SlotTable.FullIffAllOccupied | server.go:144-151 | the table is full exactly when every slot is counted |
| SlotTable.OccupiedUpdate | server.go:119 | writing one slot changes the count by what left and what arrived |
| SlotTable.FirstFree | server.go:144-151 | the lowest nil slot, with every slot before it taken, or -1 exactly when the table is full |
| SlotTable.CountOccupied | server.go:84-92 | the counting loop gives exactly the number of occupied slots |
| PixelServer.ParseEvent | server.go:290-297 | (-1, -1, nil) exactly for a message not 11 bytes long; otherwise uint32 coordinates and an opaque NRGBA colour |
| PixelServer.Accepts | server.go:217-224 | the messages `handleMessage` accepts: 11 bytes naming a pixel of the canvas; `HandleMessage` is accepted exactly for these, and `Protocol.PlacementAccepted` shows every on-canvas client encoding is one |
| PixelServer.ParseOfEncoded | server.go:290-297 | the server parses a client's encoding to its coordinates modulo 2^32 and its opaque colour |
| PixelServer.Permission | server.go:95-104 | without the whitelist everyone may draw as id 0; with it, exactly holders of a listed key, with that key's id |
| PixelServer.Welcome | server.go:202-206 | the first message is one byte, 1 exactly with permission |
| PixelServer.Deliver | server.go:236-242 | a channel with room takes the message; a full one is closed and its slot cleared |
| PixelServer.Delivered | server.go:235-244 | a broadcast delivers to every slot independently |
| PixelServer.BroadcastNeverAdds | server.go:234-244 | a broadcast never raises the client count |
| PixelServer.CloseSlot | server.go:229-233 | as written: slot i is cleared whoever holds it, every other slot kept |
| PixelServer.CloseOwnSlot | server.go:229-233 | corrected: slot i is cleared only while it holds the closing client's channel |
| PixelServer.StaleCloseEvictsNewcomer | server.go:198 | a close that arrives after its slot was freed by a broadcast and refilled evicts the newcomer |
| PixelServer.Server.constructor | server.go:46-59 | `count` empty slots, no client, no cached encoding |
| PixelServer.Server.HandleGetStat | server.go:84-92 | the count of connected clients, equal to the slot count exactly when full |
| PixelServer.Server.HandleSocket | server.go:94-122 | 503 exactly when full; a failed upgrade changes nothing; otherwise the lowest free slot gets a fresh empty channel |
| PixelServer.Server.SetPixel | server.go:274-288 | accepted exactly on the canvas; then the pixel is set, the cache dropped, and with the whitelist the id recorded |
| PixelServer.Server.Broadcast | server.go:234-244 | the table after a broadcast is the delivered table |
| PixelServer.Server.HandleMessage | server.go:217-224 | accepted exactly for 11 bytes naming a pixel of the canvas, which takes the opaque colour and is broadcast; the image cache is dropped, the record takes the id and loses its cache only with the whitelist; a rejected message changes nothing |
| PixelServer.Server.CloseAsWritten | server.go:229-233 | the table with slot i cleared, whoever holds it |
| PixelServer.Server.Close | server.go:229-233 | the table with slot i cleared only if it still holds this client's channel |
| PixelServer.Server.ReadLoopStepAsWritten | server.go:178-199 | as written: kicked exactly without permission, over the rate or on a bad message, and then slot i is cleared whoever holds it, image and record untouched; an accepted message is applied as by `handleMessage` and broadcast |
| PixelServer.Server.ReadLoopStep | server.go:178-199 | corrected: the same turn, but a kick clears the slot only while it holds this client's channel |
| PixelServer.Server.WriterTakes | server.go:207-213 | the writer takes the oldest buffered message of its channel, if any |
| PixelServer.Server.GetImageBytes | server.go:249-258 | the encoding is of the current image and is cached; an existing cache is returned as is |
| PixelServer.Server.GetRecordBytes | server.go:260-272 | the same for the record image, only with the whitelist |
| PixelServer.NoneUnoccupied | server.go:51 | a table of nil slots counts no client |
| WsServer.ParseEvent | ws/server.go:115-122 | (-1, -1, nil) exactly for a message not 11 bytes long; otherwise uint32 coordinates and three colour bytes |
| WsServer.ParseOfEncoded | ws/server.go:115-122 | the server parses a client's encoding to its coordinates modulo 2^32 and its colour |
| WsServer.Write | ws/server.go:94-96 | writing to an open connection appends the message; a closed one takes nothing |
| WsServer.SendAll | ws/server.go:92-98 | corrected broadcast: every present connection is written to, nil slots skipped |
| WsServer.SendAllKeepsSlots | ws/server.go:92-98 | the broadcast neither frees nor fills a slot |
| WsServer.Server.constructor | ws/server.go:28-34 | `count` nil slots and a zeroed canvas of the given size |
| WsServer.Server.PositionOk | ws/server.go:111-113 | true exactly for a pixel of the canvas |
| WsServer.Server.Connect | ws/server.go:40-54 | 503 exactly when full; a failed upgrade changes nothing; otherwise the lowest free slot gets the connection |
| WsServer.Server.BroadcastAsWritten | ws/server.go:92-98 | as written: it dereferences nil, and panics, exactly when some slot is empty, at the lowest empty slot, with the slots before it written and the rest untouched |
| WsServer.Server.Broadcast | ws/server.go:92-98 | corrected: the table after writing to every connection present |
| WsServer.Server.ReadMessageAsWritten | ws/server.go:75-90 | as written: fails exactly on a read error or a bad placement, which only close the connection; otherwise the pixel is copied in, the cache dropped, and the broadcast panics exactly when some slot is nil |
| WsServer.Server.PlaceAsWritten | ws/server.go:84-88 | as written: the colour bytes are copied at the pixel and the cache dropped; the broadcast panics exactly when some slot is nil, and every slot is left written or untouched |
| WsServer.Server.ReadMessage | ws/server.go:75-90 | corrected: the same turn with a broadcast that writes to every connection present and skips the nil slots |
| WsServer.Server.Place | ws/server.go:84-88 | corrected: the colour bytes are copied at the pixel, the cache dropped, every connection present written to |
| WsServer.Server.CloseConn | ws/server.go:69 | the connection is closed but stays in its slot |
| WsServer.Server.Accepted | ws/server.go:75-83 | the placements `readMessage` accepts: 11 bytes naming a pixel of the canvas; `ReadMessage` fails exactly on the others |
| WsServer.Server.BufferImg | ws/server.go:100-109 | the encoding is of the current canvas and is cached; an existing cache is returned as is |
| WsServer.HalfFullTablePanics | ws/server.go:93-94 | one client in a table of two: the first broadcast panics |
| Raster.PixelInBuffer | placeimage.go:33 | an in-bounds pixel's bytes lie inside a w*h*k buffer |
| Raster.PixelRangesDisjoint | placeimage.go:43 | distinct pixels own disjoint byte ranges |
| Raster.CopyInto | placeimage.go:44 | `copy` overwrites min(len(src), len(dst) - pos) bytes from pos and leaves the rest |
| Raster.Copy | placeimage.go:44 | the byte copy gives exactly that |
| PlaceImage.SetThenAt | placeimage.go:32-45 | after setting a pixel to three bytes, it reads back as them and every other pixel is unchanged |
| PlaceImage.SetRunsOn | placeimage.go:42-45 | a longer colour spills onto the next pixel, as `copy` does |
| PlaceImage.PlaceImage.constructor | placeimage.go:13-19 | a w*h*3 slice of zero bytes |
| PlaceImage.PlaceImage.Bounds | placeimage.go:25-30 | the rectangle from (0, 0) whose points are exactly the pixels |
| PlaceImage.PlaceImage.At | placeimage.go:32-40 | the pixel's three bytes, opaque |
| PlaceImage.PixelOf | placeimage.go:32-40 | the colour at a pixel's first byte, opaque; `SetThenAt` and `SetRunsOn` state how `Set` changes it |
| PlaceImage.PlaceImage.Set | placeimage.go:42-45 | the slice after copying b in at the pixel's first byte |
| RgbImage.FreshPixel | rgbimage.go:13-23 | every pixel of a fresh image is opaque black |
| RgbImage.RgbImage.constructor | rgbimage.go:13-23 | a w*h*4 slice, 0xFF at every fourth byte and 0 elsewhere |
| RgbImage.NextAlpha | rgbimage.go:13-23 | two alpha positions (3 modulo 4) less than 4 apart are equal, so the fill loop writes each alpha byte once |
| RgbImage.RgbImage.Bounds | rgbimage.go:29-34 | the rectangle from (0, 0) whose points are exactly the pixels |
| RgbImage.RgbImage.At | rgbimage.go:36-44 | the pixel's four bytes |
| RgbImage.PixelOf | rgbimage.go:36-44 | the four bytes at a pixel's first byte; `FreshPixel` states their value on a new image |
| HistoryServer.GuardAdmitsOneTooMany | place.go:65-69 | as written, id = current - window - 1 passes and asks for window + 1 events |
| HistoryServer.EventsFitWindow | place.go:118-127 | past the corrected test the slice length is between 1 and the window |
| HistoryServer.GuardsDifferByOne | place.go:65 | the two tests differ exactly at id = current - window - 1 |
| HistoryServer.ServesImageAsWritten | place.go:65 | the test as written; `GuardAdmitsOneTooMany` shows the id it lets through |
| HistoryServer.ServesImage | place.go:65 | the corrected test; `EventsFitWindow` shows the slice it admits fits the window |
| HistoryServer.WindowTail | place.go:118-127 | the last current - id entries of the window are the placements after id |
| HistoryServer.WindowShift | place.go:91-94 | one more placement drops the oldest window entry and appends the new one |
| HistoryServer.PlaceServer.constructor | place.go:27-34 | an opaque-black canvas, a blank window of `history` events, count 0, no cache |
| HistoryServer.PlaceServer.DimsOk | place.go:100-102 | true exactly for a pixel of the canvas |
| HistoryServer.PlaceServer.HandlePut | place.go:74-98 | 200 exactly for a decodable event on the canvas with base64 data, which is copied in at the pixel; the cache is dropped and, with a history, the window shifts and the count rises; otherwise 400 and nothing changes, the placement log included |
| HistoryServer.PlaceServer.ImageData | place.go:104-116 | the image answer carries the count and the current canvas, and the cache is filled |
| HistoryServer.PlaceServer.ServeImage | place.go:47-53 | the cached encoding of the current canvas |
| HistoryServer.PlaceServer.EventsData | place.go:118-127 | panics exactly when current - id is outside [0, len(events)]; otherwise the last current - id events |
| HistoryServer.PlaceServer.HandleGetAsWritten | place.go:55-72 | as written: an unparsable id reads as 0; the image or `eventsData` as the as-written test says |
| HistoryServer.PlaceServer.HandleGet | place.go:55-72 | corrected: never panics, and a client gets exactly the placements after its id, or the image |
| CleanImage.View | cmd/cleanup/main.go:25-26 | the canvas a visit finds: earlier pixels rewritten, later ones original |
| CleanImage.Visit | cmd/cleanup/main.go:27-40 | one visit keeps the canvas shape |
| CleanImage.ScanColumn | cmd/cleanup/main.go:26 | the inner loop keeps the canvas shape |
| CleanImage.ScanFrom | cmd/cleanup/main.go:25 | the outer loop keeps the canvas shape |
| CleanImage.Scan | cmd/cleanup/main.go:25-42 | a scan keeps the canvas dimensions |
| CleanImage.ViewUnchanged | cmd/cleanup/main.go:38 | writing a pixel not yet visited leaves the view of the earlier visits alone |
| CleanImage.ViewAtVisit | cmd/cleanup/main.go:25-27 | just before a visit the canvas is exactly its view |
| CleanImage.VisitStep | cmd/cleanup/main.go:26-41 | each visit extends the scan state by one pixel |
| CleanImage.ColumnDone | cmd/cleanup/main.go:25-26 | the end of one column is the start of the next |
| CleanImage.ScanColumnScanned | cmd/cleanup/main.go:26-41 | the inner loop completes the column |
| CleanImage.ScanFromScanned | cmd/cleanup/main.go:25-42 | the outer loop completes the canvas |
| CleanImage.Scanned | cmd/cleanup/main.go:25-42 | every pixel of the result is the rule applied to the canvas as its turn found it; `ScanVisitsEach` shows the scan meets it |
| CleanImage.ScannedTo | cmd/cleanup/main.go:25-42 | the state of the in-place loops at (x, y): earlier pixels rewritten, later ones original; the loop invariant of every cleanup pass |
| CleanImage.ScanVisitsEach | cmd/cleanup/main.go:25-42 | every pixel of the result is the rule applied to the canvas as its visit found it |
| CleanImage.ScanWhitens | cmd/cleanup/main.go:25-42 | a scan whose rule only clears to white only clears to white |
| CleanImage.Whitens | cmd/cleanup/main.go:37-38 | a pixel is kept or a non-white one becomes white; `WhitensTransitive` shows this composes |
| CleanImage.Whitening | cmd/cleanup/main.go:25-42 | a rule that only whitens, on every canvas and pixel; `ScanWhitens` lifts it to the scan |
| CleanImage.WhitensTransitive | cmd/cleanup/cleanup.go:30-70 | passes that only clear to white compose |
| CleanImage.Image.constructor | cmd/cleanup/main.go:21-24 | the loaded canvas with its dimensions |
| CleanImage.Image.Set | cmd/cleanup/main.go:38 | only that pixel changes |
| Despeckle.IsWhite | cmd/cleanup/main.go:51-59 | 1 exactly for a white pixel on the canvas; 0 otherwise, off the canvas included |
| Despeckle.Count | cmd/cleanup/main.go:28-36 | the non-white count is between 0 and 8 |
| Despeckle.Despeckled | cmd/cleanup/main.go:27-39 | the despeckle rule for one pixel; `SpeckleCleared`, `BorderKept` and `FilterWhitens` state what it does |
| Despeckle.Filter | cmd/cleanup/main.go:25-42 | the despeckle rule as a scan rule; `Clean` is proved equal to the scan with it |
| Despeckle.FilterWhitens | cmd/cleanup/main.go:27-39 | the despeckle rule only clears non-white pixels to white |
| Despeckle.BorderKept | cmd/cleanup/main.go:28-37 | a border pixel is never cleared: at least three places off the canvas count as non-white |
| Despeckle.SpeckleCleared | cmd/cleanup/main.go:37-38 | a non-white pixel with a count of at most 2 is cleared |
| Despeckle.ScanKeepsBorder | cmd/cleanup/main.go:25-42 | the whole pass leaves the border of the canvas unchanged |
| Despeckle.ScanOnlyClears | cmd/cleanup/main.go:25-42 | the whole pass only clears non-white pixels to white |
| Despeckle.Clean | cmd/cleanup/main.go:25-42 | the in-place loops compute exactly the scan of the despeckle rule |
| Despeckle.VisitSpeckle | cmd/cleanup/main.go:27-40 | one visit of the pass: the pixel takes the despeckle rule's value on the canvas as it stands |
| Cleanup.SearchOffsets | cmd/cleanup/cleanup.go:21-22 | the tables name each of the eight neighbouring places once, and nothing else |
| Cleanup.IsWhite | cmd/cleanup/cleanup.go:92-98 | 1 exactly for white |
| Cleanup.Wrap | cmd/cleanup/cleanup.go:82-84 | uint32 subtraction: non-negative differences kept, negative ones wrapped by 2^32 |
| Cleanup.DifferenceAsWritten | cmd/cleanup/cleanup.go:79-86 | as written, the difference is below 2^32 and 0 exactly for equal colours |
| Cleanup.ChannelAsWritten | cmd/cleanup/cleanup.go:82 | as written, a channel is close only when not below, and by less than 30000 |
| Cleanup.SimilarAsWritten | cmd/cleanup/cleanup.go:38 | as written, c2 is close to c only when every channel of c2 is at most c's and within 30000 |
| Cleanup.DifferenceNotSymmetric | cmd/cleanup/cleanup.go:79-86 | black and grey (1, 1, 1) differ by 1 one way and by 2^32 - 1 the other |
| Cleanup.Difference | cmd/cleanup/cleanup.go:79-86 | corrected, the difference is below 2^16 and 0 exactly for equal colours |
| Cleanup.DifferenceSymmetric | cmd/cleanup/cleanup.go:79-86 | the corrected difference does not depend on argument order |
| Cleanup.SimilarCorrected | cmd/cleanup/cleanup.go:38 | corrected, colours are close exactly when every channel is within 30000 either way |
| Cleanup.Similar | cmd/cleanup/cleanup.go:38 | the closeness test, with the wrapping or the corrected difference; `SimilarAsWritten` and `SimilarCorrected` state it |
| Cleanup.DifferencesAgree | cmd/cleanup/cleanup.go:79-86 | the two agree when no channel of c2 exceeds that of c |
| Cleanup.CrowdCount | cmd/cleanup/cleanup.go:56-63 | the count over the first k places is between 0 and k |
| Cleanup.CleanedOnlyClears | cmd/cleanup/cleanup.go:30-70 | the three passes keep the canvas shape and only clear non-white pixels to white |
| Cleanup.LonePixelIsolated | cmd/cleanup/cleanup.go:34-46 | on a 1 by 1 canvas the first pass clears any colour |
| Cleanup.CornerCrowded | cmd/cleanup/cleanup.go:54-66 | a non-white corner is cleared exactly when two of its three neighbours are white |
| Cleanup.DarkPairErased | cmd/cleanup/cleanup.go:30-49 | as written, black above grey (1, 1, 1) on a 1 by 2 canvas is erased whole; corrected, both stay |
| Cleanup.OnlyNeighbourBelow | cmd/cleanup/cleanup.go:35-43 | on a 1 by 2 canvas the top pixel's only neighbour is the one below |
| Cleanup.OnlyNeighbourAbove | cmd/cleanup/cleanup.go:35-43 | on a 1 by 2 canvas the bottom pixel's only neighbour is the one above |
| Cleanup.FindSimilar | cmd/cleanup/cleanup.go:34-43 | the search loop succeeds exactly when some neighbour on the canvas is close in colour |
| Cleanup.HasSimilarNeighbour | cmd/cleanup/cleanup.go:34-43 | some neighbour on the canvas is close in colour; `FindSimilar` is proved to compute it |
| Cleanup.CountCrowd | cmd/cleanup/cleanup.go:55-63 | the count of white or off-canvas places around the pixel |
| Cleanup.Isolated | cmd/cleanup/cleanup.go:32-47 | the first pass's rule: a non-white pixel with no close neighbour becomes white; `LonePixelIsolated` and `DarkPairErased` exercise it |
| Cleanup.Crowded | cmd/cleanup/cleanup.go:53-67 | a later pass's rule: a non-white pixel with more than six white or off-canvas neighbours becomes white; `CornerCrowded` exercises it |
| Cleanup.IsolatedFilter | cmd/cleanup/cleanup.go:30-49 | the first pass's rule as a scan rule; `ClearIsolated` is proved equal to the scan with it |
| Cleanup.CrowdedFilter | cmd/cleanup/cleanup.go:51-69 | a later pass's rule as a scan rule; `ClearCrowded` is proved equal to the scan with it |
| Cleanup.Cleaned | cmd/cleanup/cleanup.go:30-70 | the three passes in order; `CleanedOnlyClears` states they only clear, and `CleanAsWritten` and `Clean` are proved to compute it |
| Cleanup.VisitIsolated | cmd/cleanup/cleanup.go:32-47 | one visit of the first pass |
| Cleanup.VisitCrowded | cmd/cleanup/cleanup.go:53-67 | one visit of a later pass |
| Cleanup.ClearIsolated | cmd/cleanup/cleanup.go:30-49 | the first pass's loops compute exactly its scan |
| Cleanup.ClearCrowded | cmd/cleanup/cleanup.go:51-69 | a later pass's loops compute exactly its scan |
| Cleanup.CleanAsWritten | cmd/cleanup/cleanup.go:30-70 | as written: the first pass with the wrapping difference, then two crowd passes |
| Cleanup.Clean | cmd/cleanup/cleanup.go:30-70 | corrected: the same passes with the absolute difference |
| Protocol.WelcomeGrantsPermission | server.go:202-206 | the client reads the server's welcome byte back as the same permission |
| Protocol.PlacementAccepted | server.go:290-297 | a client's encoding of a pixel on the canvas is accepted and parsed to that pixel and its opaque colour, and every client decodes the relayed bytes to the same event |
| Protocol.OffCanvasRefused | server.go:278-280 | a pixel off the canvas is refused however it is encoded |

## Left out

- WebGL itself is not modelled beyond the projection. That covers shader compilation, program linking, buffer setup, `draw`, and the fragment shader's sampling. Texture reads (`getColor`) are parameters.
- Browser I/O is left out: `fetch`, the download progress loop, `Image`/`Blob` URLs, alerts, `keyPrompt` and `verifykey`, the loading text and the DOM style changes. Examples are the swatch colour, the cursor, and the scaler size that the old `setZoom` sets.
- The touch listeners of `web/root/main.js` and `web/root/js/main.js` are left out. They depend on timers and `navigator.vibrate`.
- `updateTexture` of `web/root/js/old/glwindow.js` is left out. It loops over an undefined `data` and would throw. The polling client's paints are recorded as surface calls instead.
- The GUIs' `click` handlers mutate the event position in place. That aliasing is not modelled, because the model passes the click result as a value.
- Viewport arithmetic is over exact reals; IEEE rounding and overflow are not modelled. NaN is modelled only as the `NotANumber` outcome of a zero-size box.
- ViewMath.Truncate: the uint32 wrap of `setUint32` for negative or huge coordinates is stated by `BigEndian.Uint32Bytes` (modulo 2^32), not by this function.
- The rate limiter of `server.go` is a float32 timer. Its verdict is a parameter (`withinRate`).
- Goroutines, channels and locks are modelled as sequential steps. A channel closed by the broadcast loop does not deliver its buffered messages to the writer.
- A panic in `ws/server.go`'s `broadcast` ends the whole process; the model returns `panicked` and says what the table holds at that moment, and nothing after it.
- A read error in `readLoop` of `server.go` ends the loop and sends the close as a kick does; the read-loop steps take the message read, so that case is `CloseAsWritten` (or `Close`) alone.
- The long-poll wait of `place.go` (`wait=true`, `queue`, `clearQueue`) is not modelled; it involves blocking channel operations.
- JSON and base64 decoding in `place.go` are inputs as `Option` values. JSON and base64 encoding of the answers is replaced by the answer values.
- PNG encoding is represented by the pixels it encodes. PNG decoding in the cleanup programs is replaced by the loaded grid.
- The cleanup programs read colours as the 16-bit channels `RGBA()` reports. `Set` with white is taken to give exact white. A paletted image without white in its palette is not modelled.
- Alpha is not modelled in the cleanup programs, which never read it.
- The `tolerance` flag of `cmd/cleanup/cleanup.go` is declared but never read, so it is not modelled.
- The entry points are not modelled: `main` functions, flag parsing, file output, HTTP routing (`ServeHTTP`) and `HandleSetKeyCookie`'s cookie expiry.
- `web/root/js/glwindow.js` is not part of this model. `QueuedGui` uses the closure window of `root/js/glwindow.js` for zoom, drag and uploads.
- QueuedGui.Gui.MouseDown: the picked or drawn pixel is not tied to (clientX, clientY). The result of `click` is a free parameter, because the window that computes it, `web/root/js/glwindow.js`, is not part of this model. The same holds for `QueuedGui.Gui.PickColor` and `QueuedGui.Gui.DrawPixel`.
- `WebGui.Gui.PickColor` and `WebGui.Gui.DrawPixel` take the result of `click` for whatever position their callers give. `MouseDown` ties it to the mouse position; the touch handlers that also call them are left out.
- WsServer.Write: a write to an open connection always succeeds. A failed `WriteMessage`, which `broadcast` answers with `c.Close()` (ws/server.go:94-96), is not modelled; a connection closed by a failed read takes no more messages.
- BatchPlace.Place.HandleResponse: an exception inside the handler, such as `updateTexture` looping over an undefined `data`, also ends the polling chain of `web/root/js/old/place.js`, because the next request is only sent after the handler returns. The model treats each response as one step and does not say that polling stops.
- The colour the clients store is a `seq` of bytes, not a shared `Uint8Array`. Aliasing between the picked colour and the texel buffer is not modelled.
- ViewMath.NoTextureNoHit: with no texture, `click` is stated only to give no usable point (a miss or NaN). Which of the two it gives is not stated.

## Findings

| source | as written | input that shows it | evidently intended | confidence | as-written member | corrected member |
|---|---|---|---|---|---|---|
| place.go:65 | the image is served only when `id + 1 < current - len(events)`, so id = current - window - 1 reaches `eventsData` | history 1, three placements, `?id=1`: `eventsData` slices 2 events off a window of 1 and panics | serve the image when `id < current - len(events)` | not executed | HistoryServer.PlaceServer.HandleGetAsWritten | HistoryServer.PlaceServer.HandleGet |
| root/js/place.js:20-25 | `queue.unshift()` adds nothing and returns the length, so the pixel is a number and `placePixel` is handed `undefined` for its colour, where `color.length` (root/js/glwindow.js:63) throws before `queue = null` | two events arrive before the snapshot; neither is painted, the queue survives, and every later event is queued and never painted | paint each queued event in order (`shift`) | not executed | QueuedPlace.Place.SnapshotAsWritten | QueuedPlace.Place.Snapshot |
| web/root/js/old/glwindow.js:93-94 | `toScreenCoords` subtracts `camPos` unscaled, while `toTexCoords` and the shader use `camPos / viewScale` | a view 100 pixels wide scrolled by 10: screen point 0 comes back as -9.9 | subtract `camPos / viewScale` | not executed | OldViewport.ScreenOfTexCounterexample | OldViewport.ScreenOfTex |
| ws/server.go:93-94 | `broadcast` calls `WriteMessage` on every slot, nil ones included | a table of two slots with one client: its first placement dereferences nil | skip the nil slots | not executed | WsServer.Server.ReadMessageAsWritten | WsServer.Server.ReadMessage |
| server.go:229-233 | a close clears slot i whoever holds it | a full client is dropped by a broadcast, a newcomer takes its slot, then the first client's `readLoop` ends and its close evicts the newcomer | clear the slot only while it holds the closing client's channel | not executed | PixelServer.Server.ReadLoopStepAsWritten | PixelServer.Server.ReadLoopStep |
| cmd/cleanup/cleanup.go:79-86 | `r - r2` is `uint32` and wraps before `math.Abs`, so a neighbour lighter in some channel is never close | black above grey (1, 1, 1) on a 1 by 2 canvas: black, whose only neighbour is lighter, is erased, and then grey, whose only neighbour is now white: both pixels are erased | the absolute channel difference | not executed | Cleanup.DarkPairErased | Cleanup.Clean |
