# Cinema 4D Python example scripts: a verified model

This project models the core logic of eleven Cinema 4D Python example scripts. The scripts live in
four groups. The model is written in Dafny and proves what the scripts promise about their results.

- **The resource-string tool** (`unicode_encode_strings.py`) rewrites the `*.str` files of a plugin's
  `res` directory. Encoding replaces every non-ASCII character by a `\uXXXX` escape and keeps a `.bak`
  copy of the original. Decoding resolves the escapes. Restoring copies each `*.str.bak` back over its
  `*.str` file. Cleaning deletes the backups. `main` picks the mode and the directory from the
  command line or from prompts.
  - Module `ResourceEscape`: the escaping of text, Python's `unicode_escape` codec (except named
    `\N{...}` escapes, see Left out), and the decode step.
  - Module `ResourceFiles`: the four directory walks. The directory is a `ResourceTree` object whose
    `files` map (path to text) the walks rewrite in place.
  - Module `ResourceMain`: how `main` settles on a mode, a verbosity and a path.
- **Polygon-mesh topology.**
  - Edge splitting (`geometry_polgyon_edges_2024.0.py`, module `EdgeSplit`): raw edge
    `4 * polygon + edge`; removal of the split polygons at shifted indices; the replacing triangles
    and quadrangles, the middle points, the UVW data and the new edge selection.
  - Polygon extrusion (`operation_extrude_polygons_s26.py`, module `Extrude`): appended points and
    faces, the removal of the extruded polygons, and the new selection.
  - The two UVW-pin scripts (module `UvwPins`): translation between pinned UV points and the point
    selection.
  - Module `Mesh`: the shared vocabulary. A `CPolygon` has four corners, and a triangle repeats its
    third one. It also holds the `BaseSelect.GetAll` list and dropping list entries by index.
- **The drag-and-swap user area** (`geuserarea_drag_r13.py`, module `DragArea`): the class
  `DraggingArea` with its `squareList`, `draggedObj` and `clickedPos` fields, the class `Square`,
  the slot geometry and hit test, the drag loop and the release rules that reorder the list.
- **Scene-tree walks.**
  - `operation_transfer_axis_s26.py` (module `ObjectTree`): `GetAllNodes` and the choice of a target
    object.
  - `read_modata_color_r16.py` (module `MoDataColor`): the polygon-cache iterator and the two colour
    readers.
  - `geometry_caches_s26.py` (module `CacheTree`): the printed cache tree.
  - `access_graph_entities_2024_2.py` (module `GraphTree`): the node-graph walk with depths.
  - `gvnodemaster_loops_nodes_r13.py` (module `Xpresso`): the Xpresso node walk.
- Module `Lists` holds the Python list operations the scripts rely on (`index`, `remove`, `insert`,
  negative indexing, slicing). Module `Wrappers` holds `Option` and `Result`.

**How the host is represented.**
- Host scene objects, graph nodes and Xpresso nodes are values. They are datatypes with the host's
  `GetDown`/`GetNext` links or child lists.
- Where a script changes an object in place, the model follows the source's form:
  - The resource directory and the drag area are classes with mutable fields.
  - The mesh scripts are methods. They run their loops over local lists and return the lists the
    script writes back.
- Printed output is returned as a sequence of line records.
- Exceptions and the scripts' early returns become the `Err` or failure case of a result.
- Host values the model cannot compute are parameters:
  - `MixVec`, and the extrusion of a point along a polygon normal;
  - `ID_OPERATOR_CONST`;
  - the popup's answer and a MoGraph colour array;
  - the listing an `os.walk` produces.

**The decoder is `unicode_escape` over code points; the code as written is `DecodeAsWritten`.**
The decode docstring calls decoding the reverse of encoding. The code decodes `content.encode("utf-8")` with `unicode_escape`, which reads
the UTF-8 bytes of non-ASCII text back as Latin-1 characters. The model keeps that decoder as
`ResourceEscape.DecodeAsWritten` and uses the corrected one (`ResourceEscape.Decode`) in the walks
(see Findings).

The reverse property holds, and is proved, only for text without backslashes whose characters all
lie below U+10000. Above that, the escape has five hex digits but the decoder reads four. A decoded
code point that is not a character (a lone surrogate) cannot be written as UTF-8. The script has
already opened the file for writing by then, so that file is left empty, and the model does the same.

## Model

| member | source | states |
|---|---|---|
| ResourceEscape.Utf8 | plugins/py-cmd_gui_resources_2024/unicode_encode_strings.py:155 | The UTF-8 encoding of a character is 1 to 4 bytes. It is a single byte exactly when the character is ASCII, and that byte is then the code point. |
| ResourceEscape.Utf8BytesOfAscii | plugins/py-cmd_gui_resources_2024/unicode_encode_strings.py:155 | On ASCII text the bytes that `encode("utf-8")` yields are the code points. |
| ResourceEscape.ToText | plugins/py-cmd_gui_resources_2024/unicode_encode_strings.py:155-161 | Decoded code points become text exactly when each is a Unicode scalar value. The text then has exactly those code points. |
| ResourceEscape.HexSpec | plugins/py-cmd_gui_resources_2024/unicode_encode_strings.py:108 | The hexadecimal numeral of `n` has lowercase digits and no leading zero, and it reads back as `n`. It has at most four digits exactly when `n < 0x10000`. |
| ResourceEscape.Hex04Spec | plugins/py-cmd_gui_resources_2024/unicode_encode_strings.py:108 | `{:04x}` gives at least four lowercase digits that read back as `n`, with zero padding only up to four. It has exactly four digits when `n < 0x10000`. |
| ResourceEscape.EscapeCharSpec | plugins/py-cmd_gui_resources_2024/unicode_encode_strings.py:106-109 | An ASCII character is kept. Any other becomes a backslash, `u` and at least four lowercase hex digits that denote its code point. |
| ResourceEscape.EscapeUnicodeAppend | plugins/py-cmd_gui_resources_2024/unicode_encode_strings.py:106-109 | The substitution works character by character, so it distributes over concatenation. |
| ResourceEscape.EscapeUnicodeIsAscii | plugins/py-cmd_gui_resources_2024/unicode_encode_strings.py:106-109 | Escaped text is pure ASCII, so the ASCII write at lines 125-126 cannot fail. |
| ResourceEscape.EscapeUnicodeOfAscii | plugins/py-cmd_gui_resources_2024/unicode_encode_strings.py:106-109 | ASCII text is left exactly as it is. |
| ResourceEscape.EscapeUnicodeIdempotent | plugins/py-cmd_gui_resources_2024/unicode_encode_strings.py:106-114 | Escaping twice gives the same as escaping once. |
| ResourceEscape.EscapeUnicodeLength | plugins/py-cmd_gui_resources_2024/unicode_encode_strings.py:106-109 | Escaping never shortens text, and it keeps the length only for ASCII text. |
| ResourceEscape.EscapeUnicodeUnchangedIff | plugins/py-cmd_gui_resources_2024/unicode_encode_strings.py:112-114 | Escaping leaves text unchanged exactly when the text is ASCII. That is when the encoder skips the file. |
| ResourceEscape.UnescapeNoBackslash | plugins/py-cmd_gui_resources_2024/unicode_encode_strings.py:155 | The `unicode_escape` decoder returns text without backslashes unchanged. |
| ResourceEscape.UnescapeFourDigits | plugins/py-cmd_gui_resources_2024/unicode_encode_strings.py:155 | A backslash, `u` and four hex digits decode to the value of the digits, and decoding then continues after them. |
| ResourceEscape.UnescapeEscapeChar | plugins/py-cmd_gui_resources_2024/unicode_encode_strings.py:155 | The escape of a character below U+10000, other than a backslash, decodes back to that character. |
| ResourceEscape.UnescapeEscapeUnicode | plugins/py-cmd_gui_resources_2024/unicode_encode_strings.py:141-155 | Decoding the escaped code units gives back the original code points, for text without backslashes and below U+10000. |
| ResourceEscape.EscapeBeyondBmpDoesNotRoundTrip | plugins/py-cmd_gui_resources_2024/unicode_encode_strings.py:141-155 | U+1F600 is escaped with five digits, `1f600`. Decoding that gives U+1F60 followed by `0`, so the documented reverse fails above U+FFFF. |
| ResourceEscape.DecodeAgreesOnAscii | plugins/py-cmd_gui_resources_2024/unicode_encode_strings.py:155 | On ASCII text the decoder as written and the corrected decoder agree. |
| ResourceEscape.DecodeAsWrittenGarblesNonAscii | plugins/py-cmd_gui_resources_2024/unicode_encode_strings.py:155 | As written, "ä" decodes to the two characters C3 A4. The corrected decoder gives back E4. |
| ResourceEscape.DecodeWithoutEscapesIsIdentity | plugins/py-cmd_gui_resources_2024/unicode_encode_strings.py:155-158 | With the corrected decoder, text without backslashes decodes to itself, so decoding an already decoded file changes nothing. |
| ResourceEscape.DecodeReversesEncode | plugins/py-cmd_gui_resources_2024/unicode_encode_strings.py:141-155 | Both decoders undo the escaping of text without backslashes and below U+10000. |
| ResourceFiles.BackupPathSpec | plugins/py-cmd_gui_resources_2024/unicode_encode_strings.py:116 | A backup path ends in `.bak` and never in `.str`. Dropping four characters gives back the original, and a `.str` file's backup ends in `.str.bak`. |
| ResourceFiles.BackupPathInjective | plugins/py-cmd_gui_resources_2024/unicode_encode_strings.py:116 | Different files have different backups. |
| ResourceFiles.OriginalPathSpec | plugins/py-cmd_gui_resources_2024/unicode_encode_strings.py:184-186 | Restoring `x.str.bak` writes `x.str`, which is not itself a backup and whose backup is `x.str.bak`. |
| ResourceFiles.EncodeFileStep | plugins/py-cmd_gui_resources_2024/unicode_encode_strings.py:83-126 | Handling one more listed file, with the per-file rules of the encoder, extends the path-by-path description of the walk's result to the longer listing. |
| ResourceFiles.EncodedIsAscii | plugins/py-cmd_gui_resources_2024/unicode_encode_strings.py:125-126 | After encoding, every listed `.str` file holds its escaped text, which is ASCII. |
| ResourceFiles.EncodedKeepsOthers | plugins/py-cmd_gui_resources_2024/unicode_encode_strings.py:116-117 | Encoding removes no file and changes no existing file other than the listed `.str` files. In particular an existing backup is never overwritten. |
| ResourceFiles.EncodedSkipsUnchanged | plugins/py-cmd_gui_resources_2024/unicode_encode_strings.py:99-114 | A `.str` file that escaping leaves unchanged, an empty one included, keeps its text and gets no backup. |
| ResourceFiles.EncodedNewFiles | plugins/py-cmd_gui_resources_2024/unicode_encode_strings.py:116-120 | Every file the walk creates is the backup of a listed `.str` file that escaping changed. It holds that file's original text, and no file is created when backups are off. |
| ResourceFiles.EncodedBacksUp | plugins/py-cmd_gui_resources_2024/unicode_encode_strings.py:116-120 | With backups on, a changed file without a backup gets one holding its original text. |
| ResourceFiles.EncodeTwice | plugins/py-cmd_gui_resources_2024/unicode_encode_strings.py:106-117 | A second encode walk over the same listing changes nothing. |
| ResourceFiles.DecodeFileStep | plugins/py-cmd_gui_resources_2024/unicode_encode_strings.py:147-161 | Handling one more listed file, with the per-file rules of the decoder, extends the description of the decode walk's result to the longer listing. |
| ResourceFiles.DecodeAfterEncode | plugins/py-cmd_gui_resources_2024/unicode_encode_strings.py:141-161 | Encoding and then decoding gives every listed `.str` file its original text back, for text without backslashes and below U+10000. |
| ResourceFiles.RestoreFileStep | plugins/py-cmd_gui_resources_2024/unicode_encode_strings.py:182-192 | Handling one more listed file, with the restore rules, extends the description of the restore walk's result to the longer listing. |
| ResourceFiles.RestoredFiles | plugins/py-cmd_gui_resources_2024/unicode_encode_strings.py:184-192 | After a restore, no listed backup remains, and its `.str` file holds the backup's text. |
| ResourceFiles.RestoreAfterEncode | plugins/py-cmd_gui_resources_2024/unicode_encode_strings.py:184-192 | Restoring after an encode that made the backups gives each changed file its original text back and removes the backup. |
| ResourceFiles.DeleteFileStep | plugins/py-cmd_gui_resources_2024/unicode_encode_strings.py:209-214 | Handling one more listed file extends the description of the delete walk's result: listed backups are gone and every other path is unchanged. |
| ResourceFiles.DeletedKeepsStringFiles | plugins/py-cmd_gui_resources_2024/unicode_encode_strings.py:211-214 | Deleting backups never touches a `.str` file. |
| ResourceFiles.ResourceTree.EncodeOne | plugins/py-cmd_gui_resources_2024/unicode_encode_strings.py:86-126 | The new directory is the per-file encode rule applied to the old one. Other names, missing, empty and unchanged files are skipped. The backup is written only when wanted and absent, then the file gets its escaped text. |
| ResourceFiles.ResourceTree.Encode | plugins/py-cmd_gui_resources_2024/unicode_encode_strings.py:74-126 | At every path the directory ends as the encode walk describes: listed `.str` files escaped, new backups of changed files, everything else untouched. |
| ResourceFiles.ResourceTree.Decode | plugins/py-cmd_gui_resources_2024/unicode_encode_strings.py:138-174 | At every path the directory ends as the decode walk describes: listed `.str` files decoded, left alone on a decode error or emptied when the result cannot be written, everything else untouched. |
| ResourceFiles.ResourceTree.Restore | plugins/py-cmd_gui_resources_2024/unicode_encode_strings.py:176-195 | At every path the directory ends as the restore walk describes. |
| ResourceFiles.ResourceTree.DeleteBackups | plugins/py-cmd_gui_resources_2024/unicode_encode_strings.py:197-217 | Without confirmation nothing changes. With it, the listed backups are deleted and nothing else. |
| ResourceFiles.ResourceTree.Run | plugins/py-cmd_gui_resources_2024/unicode_encode_strings.py:351-359 | Each mode runs its walk, and encoding always creates backups. |
| ResourceMain.ParseMode | plugins/py-cmd_gui_resources_2024/unicode_encode_strings.py:313-319 | Exactly `e`, `d`, `r` and `c` are modes. |
| ResourceMain.FirstMatch | plugins/py-cmd_gui_resources_2024/unicode_encode_strings.py:313-319 | The result is the position of the first valid answer, or the end when there is none. |
| ResourceMain.CheckPath | plugins/py-cmd_gui_resources_2024/unicode_encode_strings.py:342-349 | The path is accepted exactly when it exists, is a directory and ends with `res`. Otherwise the failure is the first check it fails, in that order. |
| ResourceMain.Ask | plugins/py-cmd_gui_resources_2024/unicode_encode_strings.py:313-328 | A prompt takes the first valid answer among three. It reports the end of input when the answers run out first. |
| ResourceMain.AbsPathTrailingSeparator | plugins/py-cmd_gui_resources_2024/unicode_encode_strings.py:336-340 | `abspath` of a relative path with a separator appended is that of the path without it. |
| ResourceMain.AbsPathDoubledSeparator | plugins/py-cmd_gui_resources_2024/unicode_encode_strings.py:336-340 | `abspath` treats two separators in a row inside a relative path as one. |
| ResourceMain.NormPathNoTrailingSeparator | plugins/py-cmd_gui_resources_2024/unicode_encode_strings.py:336-340 | `normpath` never leaves a separator at the end, except for a path made of separators only. |
| ResourceMain.AbsPathIsAbs | plugins/py-cmd_gui_resources_2024/unicode_encode_strings.py:336-340 | From an absolute working directory, `abspath` always gives an absolute path. |
| ResourceMain.NameWithTrailingSeparator | plugins/py-cmd_gui_resources_2024/unicode_encode_strings.py:336-349 | Run from the script directory `/d`, `--path n/` becomes `/d/n`, which ends with `n`. So `--path res/` passes the `res` check. |
| ResourceMain.ResolveInvocation | plugins/py-cmd_gui_resources_2024/unicode_encode_strings.py:277-349 | Command line: an invalid mode, a `--path` without a value and a bad path are refused; no path means `res` next to the script; a relative path goes through `os.path.abspath` from the script directory, and an absolute one is kept as given. Prompts: the default path must exist, the mode is the first valid of three answers, and for `e`/`d` the verbosity is too. |
| Mesh.RotateCorners | scripts/04_3d_concepts/modeling/geometry/geometry_polgyon_edges_2024.0.py:159-160 | Rotating the corners by `eid` puts corner `(eid + i) % 4` at position `i`. It only reorders them. |
| Mesh.GetAll | scripts/04_3d_concepts/modeling/geometry/geometry_polgyon_edges_2024.0.py:73 | `GetAll(count)` has `count` entries, and entry `i` is true exactly when `i` is selected. |
| Mesh.SelectedIndices | scripts/04_3d_concepts/modeling/geometry/geometry_polgyon_edges_2024.0.py:72-73 | The result holds exactly the positions of the true entries, in increasing order. |
| Mesh.WithoutMembers | scripts/04_3d_concepts/modeling/geometry/operation_extrude_polygons_s26.py:292 | The filter keeps an element exactly when some index outside the dropped set holds it. |
| Mesh.WithoutSplit | scripts/04_3d_concepts/modeling/geometry/operation_extrude_polygons_s26.py:284-292 | Dropping only indices below `m` leaves everything from `m` on in place. |
| Mesh.WithoutLength | scripts/04_3d_concepts/modeling/geometry/operation_extrude_polygons_s26.py:292 | Dropping a set of in-range indices removes exactly that many elements. |
| Mesh.PopAfterWithout | scripts/04_3d_concepts/modeling/geometry/geometry_polgyon_edges_2024.0.py:126-127 | When all earlier pops were below `pid`, popping at `pid - len(splitData)` pops original polygon `pid`. The rest equals dropping `pid` as well. |
| EdgeSplit.CollectDuplicate | scripts/04_3d_concepts/modeling/geometry/geometry_polgyon_edges_2024.0.py:118-122 | A polygon already collected means the previous selected edge lies on the same polygon, and no earlier pair shares one. |
| EdgeSplit.PopKept | scripts/04_3d_concepts/modeling/geometry/geometry_polgyon_edges_2024.0.py:126-129 | The shifted pop yields original polygon `pid` and its UVWs. Afterwards the kept polygons and UVWs are the originals without the popped ones. |
| EdgeSplit.CollectSplits | scripts/04_3d_concepts/modeling/geometry/geometry_polgyon_edges_2024.0.py:105-129 | The first loop aborts exactly when two selected edges share a polygon, at the first such pair. Otherwise it collects one entry per edge, on distinct polygons, and keeps the other polygons and UVWs in order. |
| EdgeSplit.PopSplit | scripts/04_3d_concepts/modeling/geometry/geometry_polgyon_edges_2024.0.py:106-129 | One round of the first loop keeps the collected entries and the kept lists in step with the edges seen. |
| EdgeSplit.SplitFaces | scripts/04_3d_concepts/modeling/geometry/geometry_polgyon_edges_2024.0.py:175-193 | A split gives two polygons in quadrangle mode and three in triangle mode. |
| EdgeSplit.IndexOf | scripts/04_3d_concepts/modeling/geometry/geometry_polgyon_edges_2024.0.py:166 | The result is the first index holding the point, or the list length when there is none. |
| EdgeSplit.PointsStep | scripts/04_3d_concepts/modeling/geometry/geometry_polgyon_edges_2024.0.py:165-168 | Each split appends exactly one point, the middle of its edge, even when an equal point exists. |
| EdgeSplit.PolygonsStep | scripts/04_3d_concepts/modeling/geometry/geometry_polgyon_edges_2024.0.py:165-193 | Each split appends its replacing polygons after the earlier ones. They reference the first point equal to the middle. |
| EdgeSplit.MidsStep | scripts/04_3d_concepts/modeling/geometry/geometry_polgyon_edges_2024.0.py:167 | Every middle point used by a split has a `pointData` entry. |
| EdgeSplit.PointDataStep | scripts/04_3d_concepts/modeling/geometry/geometry_polgyon_edges_2024.0.py:165-167 | Every `pointData` entry names two old points, and the point at that index is their mix. |
| EdgeSplit.EdgesStep | scripts/04_3d_concepts/modeling/geometry/geometry_polgyon_edges_2024.0.py:206-207 | Each split adds the raw edges `4 * lastPid` and `4 * (lastPid + 1)`, where `lastPid` is the polygon count before its append. |
| EdgeSplit.UvwStep | scripts/04_3d_concepts/modeling/geometry/geometry_polgyon_edges_2024.0.py:184-199 | Each split appends as many UVW quads as polygons, built the same way, which keeps the UVWs aligned with the polygons. |
| EdgeSplit.SplitOne | scripts/04_3d_concepts/modeling/geometry/geometry_polgyon_edges_2024.0.py:153-207 | One round of the second loop extends points, polygons, UVWs, edges and `pointData` by exactly that split. |
| EdgeSplit.ApplySplits | scripts/04_3d_concepts/modeling/geometry/geometry_polgyon_edges_2024.0.py:153-207 | After the second loop the state is the old points plus one middle per split, the kept polygons plus each split's faces, the aligned UVWs, the two raw edges per split and a sound `pointData`. |
| EdgeSplit.SplitPolygonEdges | scripts/04_3d_concepts/modeling/geometry/geometry_polgyon_edges_2024.0.py:39-207 | Nothing happens without a polygon object with selected edges. A split is refused exactly when two selected edges share a polygon. Otherwise `P - k` polygons are kept and the second loop's result is produced. |
| EdgeSplit.SplitFacesHalveEdge | scripts/04_3d_concepts/modeling/geometry/geometry_polgyon_edges_2024.0.py:175-207 | The first edges of the first two new polygons are the two halves of the split edge. The new polygons use only the old corners and the middle, and keep every old corner. The first is a triangle, and in triangle mode all are. |
| EdgeSplit.RotatedCorners | scripts/04_3d_concepts/modeling/geometry/geometry_polgyon_edges_2024.0.py:155-160 | The four rotations of `[a, b, c, d]`, written out. |
| Extrude.ClampDistance | scripts/04_3d_concepts/modeling/geometry/operation_extrude_polygons_s26.py:172 | The distance is never negative. A negative distance becomes 0 and any other is kept. |
| Extrude.VertexNeighbourhoods | scripts/04_3d_concepts/modeling/geometry/operation_extrude_polygons_s26.py:129-145 | Only 3 or 4 points are accepted. Vertex `i` gets neighbours `i - 1` and `i + 1` modulo the count. |
| Extrude.NeighbourhoodsFormCycle | scripts/04_3d_concepts/modeling/geometry/operation_extrude_polygons_s26.py:137-142 | The neighbourhoods close into a cycle: each vertex is the previous neighbour of the next vertex and the next neighbour of the previous one. |
| Extrude.Lifted | scripts/04_3d_concepts/modeling/geometry/operation_extrude_polygons_s26.py:236-246 | A triangle gets three new corners and a quadrangle four. |
| Extrude.FacesSpec | scripts/04_3d_concepts/modeling/geometry/operation_extrude_polygons_s26.py:264-277 | A triangle gets four faces and a quad five. The top face is a triangle exactly when the polygon is. Every index names an old point or a new corner. |
| Extrude.Grown | scripts/04_3d_concepts/modeling/geometry/operation_extrude_polygons_s26.py:242-246 | New points are only appended: the old points stay a prefix. |
| Extrude.GrownSpec | scripts/04_3d_concepts/modeling/geometry/operation_extrude_polygons_s26.py:242-280 | Each quad adds 4 points and 5 polygons and each triangle 3 and 4. Every new polygon names an existing point. |
| Extrude.GrownLastPoints | scripts/04_3d_concepts/modeling/geometry/operation_extrude_polygons_s26.py:242-246 | The new corners start at the current point count and are the lifted copies of the polygon's corners. |
| Extrude.Elements | scripts/04_3d_concepts/modeling/geometry/operation_extrude_polygons_s26.py:292 | Membership in the set is membership in the tuple of selected indices. |
| Extrude.ExtrudeOne | scripts/04_3d_concepts/modeling/geometry/operation_extrude_polygons_s26.py:203-280 | One round of the loop adds the next selected polygon's corners and faces. |
| Extrude.DroppedExtruded | scripts/04_3d_concepts/modeling/geometry/operation_extrude_polygons_s26.py:284-292 | Dropping the extruded polygons leaves the unselected polygons in order, followed by the new faces, all valid. |
| Extrude.SelectRange | scripts/04_3d_concepts/modeling/geometry/operation_extrude_polygons_s26.py:322-326 | The new selection is exactly `lo .. hi - 1`. |
| Extrude.ExtrudePolygons | scripts/04_3d_concepts/modeling/geometry/operation_extrude_polygons_s26.py:169-326 | It fails, changing nothing, exactly when the object is detached or nothing is selected. Otherwise the points and the kept-then-new polygons are as described, the counts grow by 4/5 per quad and 3/4 per triangle, every index is valid, and the selection is exactly the new polygons. |
| UvwPins.CPolygonGetItem | scripts/04_3d_concepts/modeling/uvw_tag/uvwtag_retrieve_uv_point_pinned_s22_114.py:21-43 | Indices 0 to 3 give corners `a` to `d`. Any other index is a `ValueError`. The remove script has the same function. |
| UvwPins.SelectCorners | scripts/04_3d_concepts/modeling/uvw_tag/uvwtag_retrieve_uv_point_pinned_s22_114.py:81-90 | The selection holds exactly the points behind the given UV points: corner `u % 4` of polygon `u / 4`. |
| UvwPins.SelectedPoints | scripts/04_3d_concepts/modeling/uvw_tag/uvwtag_retrieve_uv_point_pinned_s22_114.py:77-90 | Selecting the corners of the listed pins gives the points of the pin set. |
| UvwPins.PinnedToPointsAsWritten | scripts/04_3d_concepts/modeling/uvw_tag/uvwtag_retrieve_uv_point_pinned_s22_114.py:46-90 | No UVW tag or no pin is an error. Otherwise the selection holds the points of the pins below the point count, as written. |
| UvwPins.PinnedToPoints | scripts/04_3d_concepts/modeling/uvw_tag/uvwtag_retrieve_uv_point_pinned_s22_114.py:74-90 | Corrected read over all `4 * polygonCount` UV points: the selection is exactly the points of all pins. |
| UvwPins.PointCountLimitLosesPins | scripts/04_3d_concepts/modeling/uvw_tag/uvwtag_retrieve_uv_point_pinned_s22_114.py:74 | Two quads sharing an edge have 6 points. Pinning UV point 6 (point 5) selects nothing as written, but point 5 when corrected. |
| UvwPins.PinsToSet | scripts/04_3d_concepts/modeling/uvw_tag/uvwtag_removeselection_to_uv_point_pinned_s22_114.py:65-87 | UV point `4p + k` is collected exactly when it is below `4 * polygonCount` and corner `k` of polygon `p` is a selected point. |
| UvwPins.RemoveSelectionFromPins | scripts/04_3d_concepts/modeling/uvw_tag/uvwtag_removeselection_to_uv_point_pinned_s22_114.py:46-90 | No UVW tag is an error. Otherwise pins are only removed, and exactly those hitting a selected point. |
| UvwPins.TrianglePinsCollectedTwice | scripts/04_3d_concepts/modeling/uvw_tag/uvwtag_removeselection_to_uv_point_pinned_s22_114.py:83-87 | A triangle's selected third point is collected both as `4p + 2` and as `4p + 3`. |
| UvwPins.RemovedPinsMissSelection | scripts/04_3d_concepts/modeling/uvw_tag/uvwtag_removeselection_to_uv_point_pinned_s22_114.py:89-90 | After the removal no remaining pin names a selected point. |
| DragArea.SlotsDisjoint | scripts/03_application_development/gui/dialog/geuserarea_drag_r13.py:140-155 | Slots `105 * i` wide with 100-pixel squares never overlap. |
| DragArea.SlotAt | scripts/03_application_development/gui/dialog/geuserarea_drag_r13.py:170-176 | The result is a slot strictly containing the point, or `NOTOK` exactly when none does. |
| DragArea.SlotAtFirst | scripts/03_application_development/gui/dialog/geuserarea_drag_r13.py:170-174 | A point strictly inside slot `i` is found at `i`. |
| DragArea.SlotHits | scripts/03_application_development/gui/dialog/geuserarea_drag_r13.py:173-176 | A slot's centre hits it. A border or a gap hits nothing. |
| DragArea.Released | scripts/03_application_development/gui/dialog/geuserarea_drag_r13.py:326-363 | A release never changes the number of squares. |
| DragArea.MovedOff | scripts/03_application_development/gui/dialog/geuserarea_drag_r13.py:346-363 | A release over no square keeps the number of squares. |
| DragArea.ReleasedIsPermutation | scripts/03_application_development/gui/dialog/geuserarea_drag_r13.py:336-363 | Every release leaves the list a permutation of what it was. |
| DragArea.SwapIsPermutation | scripts/03_application_development/gui/dialog/geuserarea_drag_r13.py:341-342 | A swap is a permutation. |
| DragArea.ReleasedSwaps | scripts/03_application_development/gui/dialog/geuserarea_drag_r13.py:336-342 | Releasing over another square swaps exactly those two entries and keeps the rest. |
| DragArea.ReleasedMovesToFront | scripts/03_application_development/gui/dialog/geuserarea_drag_r13.py:348-353 | Releasing left of the first slot, when not already first, makes the dragged square first and keeps the others' order. |
| DragArea.ReleasedMovesToBack | scripts/03_application_development/gui/dialog/geuserarea_drag_r13.py:356-363 | Releasing past the last slot, when not already last, makes the dragged square last and keeps the others' order. |
| DragArea.FirstSquare | scripts/03_application_development/gui/dialog/geuserarea_drag_r13.py:310-314 | The dragged slot is a valid slot or `NOTOK`. |
| DragArea.FirstSquareStays | scripts/03_application_development/gui/dialog/geuserarea_drag_r13.py:313-314 | Once a square is dragged, later moves never change which one. |
| DragArea.MovesStep | scripts/03_application_development/gui/dialog/geuserarea_drag_r13.py:296-306 | The first tick and ticks without motion add no move. Any other tick adds itself. |
| DragArea.StillTickIgnored | scripts/03_application_development/gui/dialog/geuserarea_drag_r13.py:301-302 | A tick without motion changes nothing. |
| DragArea.GuardLetsOtherButtonsThrough | scripts/03_application_development/gui/dialog/geuserarea_drag_r13.py:273-275 | The guard as written also handles a right-button press. Every left click passes it. |
| DragArea.Square.constructor | scripts/03_application_development/gui/dialog/geuserarea_drag_r13.py:36-41 | A square keeps its parent area and its index. |
| DragArea.Square.GetParentedIndex | scripts/03_application_development/gui/dialog/geuserarea_drag_r13.py:43-53 | Without a parent the result is `NOTOK`. Otherwise it is the first position in the parent's list, or an error when the square is absent. |
| DragArea.DraggingArea.constructor | scripts/03_application_development/gui/dialog/geuserarea_drag_r13.py:115-125 | A new area is idle and holds four squares with indices 0 to 3, in order. |
| DragArea.DraggingArea.CreateSquare | scripts/03_application_development/gui/dialog/geuserarea_drag_r13.py:130-138 | It appends a fresh square whose index is the old list length, and the drag state is kept. |
| DragArea.DraggingArea.GetIdFromXY | scripts/03_application_development/gui/dialog/geuserarea_drag_r13.py:157-176 | The search returns the slot strictly containing the point, or `NOTOK`. |
| DragArea.DraggingArea.GetDraggedSquareWithPosition | scripts/03_application_development/gui/dialog/geuserarea_drag_r13.py:247-261 | The result is the square under the current position, or none. |
| DragArea.DraggingArea.Drag | scripts/03_application_development/gui/dialog/geuserarea_drag_r13.py:283-317 | After the drag loop the position is the click minus all moving deltas. The dragged square is the first square hit along the way. The list is unchanged. |
| DragArea.DraggingArea.DragTo | scripts/03_application_development/gui/dialog/geuserarea_drag_r13.py:304-314 | One moving tick records the position and sets the dragged square only if none is set yet. |
| DragArea.DraggingArea.ReleaseMove | scripts/03_application_development/gui/dialog/geuserarea_drag_r13.py:346-363 | A release over no square applies the front and back rules and keeps the area valid. |
| DragArea.DraggingArea.Release | scripts/03_application_development/gui/dialog/geuserarea_drag_r13.py:326-363 | A release with a dragged square applies the release rules at its position. Without one nothing changes. |
| DragArea.DraggingArea.InputEvent | scripts/03_application_development/gui/dialog/geuserarea_drag_r13.py:263-371 | A left click that is released reorders the list by the release rules. Anything else leaves it unchanged. The list stays a permutation, and the event always ends idle and handled. |
| DragArea.RemoveInsert | scripts/03_application_development/gui/dialog/geuserarea_drag_r13.py:346-363 | `remove` followed by `insert` at 0 or at the last index produces exactly the front or back rule. |
| DragArea.SwapKeepsValid | scripts/03_application_development/gui/dialog/geuserarea_drag_r13.py:341-342 | A swap keeps the squares distinct and owned by the area. |
| DragArea.MoveKeepsValid | scripts/03_application_development/gui/dialog/geuserarea_drag_r13.py:352-363 | A move to the front or the back keeps the squares distinct and owned by the area. |
| Lists.IndexOf | scripts/03_application_development/gui/dialog/geuserarea_drag_r13.py:53 | `list.index` returns the first position of the entry. |
| Lists.DistinctIndex | scripts/03_application_development/gui/dialog/geuserarea_drag_r13.py:53 | In a list without repetitions, `index` returns the entry's only position. |
| Lists.ListRemove | scripts/04_3d_concepts/modeling/geometry/operation_transfer_axis_s26.py:133 | `remove` drops one occurrence. The result is one shorter and its multiset loses exactly that entry. |
| Lists.ListRemoveAt | scripts/03_application_development/gui/dialog/geuserarea_drag_r13.py:352 | In a list without repetitions, `remove` drops exactly the entry's position. |
| Lists.ListInsert | scripts/03_application_development/gui/dialog/geuserarea_drag_r13.py:353 | `insert(i, x)` puts `x` at `i` and keeps the rest in order around it. |
| Lists.PyIndex | scripts/04_3d_concepts/modeling/geometry/operation_transfer_axis_s26.py:148 | Indexing succeeds exactly for `-len <= k < len`, and negative positions count from the end. |
| Lists.PySliceFrom | scripts/05_modules/mograph/read_modata_color_r16.py:35 | `s[k:]` is a suffix of `s`: `len - k` long for `0 <= k <= len`, empty past the end, and the last `-k` entries for negative `k`. |
| ObjectTree.Chain | scripts/04_3d_concepts/modeling/geometry/geometry_caches_s26.py:130 | `GetChildren` yields only objects. |
| ObjectTree.AllNodes | scripts/04_3d_concepts/modeling/geometry/operation_transfer_axis_s26.py:100-118 | The walk yields only objects. |
| ObjectTree.GetAllNodes | scripts/04_3d_concepts/modeling/geometry/operation_transfer_axis_s26.py:100-118 | The loop-and-recursion walk yields exactly the pre-order of the forest: `None` gives nothing, and each object is followed by its descendants and then its next siblings. |
| ObjectTree.AllNodesPreorder | scripts/04_3d_concepts/modeling/geometry/operation_transfer_axis_s26.py:112-118 | From any position the walk continues with that object's own walk: the object, all its descendants, then its following siblings. |
| ObjectTree.AllNodesDescendants | scripts/04_3d_concepts/modeling/geometry/operation_transfer_axis_s26.py:113-116 | Every descendant of a yielded object is yielded after it. |
| ObjectTree.AllNodesCoversForest | scripts/04_3d_concepts/modeling/geometry/operation_transfer_axis_s26.py:112-118 | Starting at the first object, every top-level object and everything below it is yielded. |
| ObjectTree.PopupMenu | scripts/04_3d_concepts/modeling/geometry/operation_transfer_axis_s26.py:138-140 | Entry `i` has id `1000 + i` and the name and type of object `i`. |
| ObjectTree.ChooseTarget | scripts/04_3d_concepts/modeling/geometry/operation_transfer_axis_s26.py:134-148 | With no other object it is an error. A result of 0 aborts. Id `1000 + i` picks object `i`. Any transfer goes from the selection to one of the others. |
| ObjectTree.TransferAxisTarget | scripts/04_3d_concepts/modeling/geometry/operation_transfer_axis_s26.py:121-148 | No selection is an error, and a selection not in the list is the `remove` error. Otherwise the target is chosen among all objects but the selection. When the scene's objects have distinct identities, the object taken out is the selected one at its own position, even when another object agrees with it in every other field. |
| MoDataColor.RetrieveColorWithMoData | scripts/05_modules/mograph/read_modata_color_r16.py:21-35 | A non-cloner is a `TypeError`. No MoGraph data gives no colours. Otherwise the result is the colour array without its first `offset` entries, a suffix of it. |
| MoDataColor.PolygonCaches | scripts/05_modules/mograph/read_modata_color_r16.py:38-75 | The iterator yields only objects. |
| MoDataColor.ChildCaches | scripts/05_modules/mograph/read_modata_color_r16.py:71-75 | The children's part yields only objects. |
| MoDataColor.OwnPolygonCaches | scripts/05_modules/mograph/read_modata_color_r16.py:47-67 | Yields the deformer-cache objects, then the generator-cache objects, then the object itself if it is a non-control polygon object. |
| MoDataColor.DeformedPolygonCacheIterator | scripts/05_modules/mograph/read_modata_color_r16.py:38-75 | A non-object is a `TypeError`. Otherwise it yields in the order deformer cache, cache, the object, then the children in sibling order. |
| MoDataColor.PolygonCachesAre | scripts/05_modules/mograph/read_modata_color_r16.py:38-75 | It yields exactly the non-control polygon objects found in the object, its caches and its children at any depth. |
| MoDataColor.ChildCachesAre | scripts/05_modules/mograph/read_modata_color_r16.py:71-75 | The same holds for a sibling chain. |
| MoDataColor.RetrieveColorWithCache | scripts/05_modules/mograph/read_modata_color_r16.py:78-87 | One colour per yielded polygon object, in iteration order. |
| MoDataColor.ReadColors | scripts/05_modules/mograph/read_modata_color_r16.py:90-100 | No object or a non-cloner is an error. Otherwise both colour lists are produced as above. |
| CacheTree.Tabs | scripts/04_3d_concepts/modeling/geometry/geometry_caches_s26.py:120 | `"\t" * indent` is `indent` tab characters. |
| CacheTree.Render | scripts/04_3d_concepts/modeling/geometry/geometry_caches_s26.py:120-121 | A printed line starts with exactly its depth in tabs. |
| CacheTree.PrintCacheTree | scripts/04_3d_concepts/modeling/geometry/geometry_caches_s26.py:65-121 | A non-object prints nothing. Otherwise the first line is the object with indent 0 and an empty prefix. |
| CacheTree.CacheTreeLineCount | scripts/04_3d_concepts/modeling/geometry/geometry_caches_s26.py:116-131 | One line per object of the tree of caches and children. |
| CacheTree.ChildLineCount | scripts/04_3d_concepts/modeling/geometry/geometry_caches_s26.py:130-131 | The same count holds for a child chain. |
| CacheTree.CacheTreeIndented | scripts/04_3d_concepts/modeling/geometry/geometry_caches_s26.py:119-131 | The first line is the object at `indent` with the given prefix. Every later line is deeper. |
| CacheTree.BelowIndented | scripts/04_3d_concepts/modeling/geometry/geometry_caches_s26.py:123-131 | Cache, deform-cache and child lines are all at least one level deeper. |
| CacheTree.ChildLinesIndented | scripts/04_3d_concepts/modeling/geometry/geometry_caches_s26.py:130-131 | Children's lines are at least at the children's indent. |
| GraphTree.KindNameUnknown | scripts/05_modules/node/access_graph_entities_2024_2.py:37-44 | A kind prints as `UNKNOWN KIND` exactly when it is missing from `kindMap`. |
| GraphTree.IterTree | scripts/05_modules/node/access_graph_entities_2024_2.py:48-58 | The walk starts with `(node, depth)`. |
| GraphTree.IterTreeYieldsDescendants | scripts/05_modules/node/access_graph_entities_2024_2.py:48-58 | The walk yields `(m, d)` exactly when `m` lies `d - depth` levels below the node, the node included. |
| GraphTree.IterChildrenYieldsDescendants | scripts/05_modules/node/access_graph_entities_2024_2.py:56-58 | The children's walk yields exactly the descendants of some child, at the right depth. |
| GraphTree.Spaces | scripts/05_modules/node/access_graph_entities_2024_2.py:62 | The indentation is exactly `n` space characters. |
| GraphTree.NodeLineIndented | scripts/05_modules/node/access_graph_entities_2024_2.py:62 | A printed line starts with two spaces per level of depth, then ` + `. |
| GraphTree.NodeLineRootMarker | scripts/05_modules/node/access_graph_entities_2024_2.py:62-63 | A line ends with `(Root Node)` when the id is empty, and with `]` otherwise. |
| GraphTree.PrintGraphTree | scripts/05_modules/node/access_graph_entities_2024_2.py:30-63 | A null graph is an error raised before the walk. Otherwise there is one line per walk entry, in walk order. |
| Xpresso.ParentLabel | scripts/05_modules/xpresso/gvnodemaster_loops_nodes_r13.py:34 | The parent column is "Master XGroup" exactly when there is no parent (or the parent has that name). |
| Xpresso.IterateNodes | scripts/05_modules/xpresso/gvnodemaster_loops_nodes_r13.py:24-42 | The loop reports the sibling chain with each group's inner walk right after it. |
| Xpresso.ReportNode | scripts/05_modules/xpresso/gvnodemaster_loops_nodes_r13.py:30-40 | One round reports the node, then its inner chain if it is a group. |
| Xpresso.InnerNodesOfNonGroupsUnseen | scripts/05_modules/xpresso/gvnodemaster_loops_nodes_r13.py:38-40 | Whatever hangs below a non-group node is never reported. |
| Xpresso.ReportsFlagConstants | scripts/05_modules/xpresso/gvnodemaster_loops_nodes_r13.py:29-42 | Every report names a reachable node and is flagged constant exactly when its operator is the constant operator. |
| Xpresso.WalkSelectedTag | scripts/05_modules/xpresso/gvnodemaster_loops_nodes_r13.py:45-66 | No object, no tag, no node master and no root are errors, checked in that order. Otherwise the result is the walk from the root. |

## Left out

- Printing, logging (`LogHandler`), `chmod`, the verbose output and the `Redraw`/`EventAdd`/`UpdateMeshUV` calls. They produce no result the model could state anything about.
- The file system: `os.walk` is the `listing` parameter, holding full paths. A failing `open` other than a decode error is not modelled. Neither is a failing backup write. `os.path.abspath` takes the script directory as given, without resolving symbolic links.
- ResourceFiles: `files[p]` is a file's text as Python reads it in text mode, after the universal-newline translation of `\r\n` and `\r` to `\n`. Line endings on disk are not modelled.
- ResourceEscape.Unescape: a named escape `\N{...}` is always a decode error, because the Unicode character database that Python looks the name up in is not part of the model.
- ResourceFiles.ResourceTree.Decode: for that reason a `.str` file holding a named escape with a known name is left unchanged, where the script decodes it.
- ResourceFiles.ResourceTree.Encode: requires that every listed path exists, as it does for a walk's listing at its start.
- ResourceFiles.ResourceTree.Decode: requires a listing without repetitions, which a walk always produces.
- ResourceFiles.ResourceTree.Run: carries the requirements of `Encode` and `Decode`.
- ResourceFiles.ResourceTree.DeleteBackups: the `y/n` answer is the `confirmed` parameter.
- ResourceMain.ResolveInvocation:
  - argparse failures other than an invalid `--mode` (unknown options, `--help`) are not modelled;
  - prompt answers arrive stripped and lower-cased;
  - the script directory is a parameter and must be absolute.
- Floating point:
  - the polygon normal (cross products, `GetMean`, normalisation) and point movement are the `lift` parameter;
  - `MixVec` is the `mix`/`uvMix` parameter, and point equality is equality of the point type;
  - mouse positions are reals, without the host's float rounding.
- Extrude.ExtrudePolygons:
  - `AssertType` failures and failing undo calls are not modelled;
  - a detached object is the `attached` flag;
  - only topology is modelled.
- Extrude.VertexNeighbourhoods: produces the neighbour triples of `GetPolygonNormal`, not the normal itself.
- EdgeSplit.SplitPolygonEdges:
  - requires that every polygon index names a point and that UVW data, when present, has one entry per polygon, as the host guarantees;
  - the Shift-key query is the `isQuadMode` parameter;
  - writing the result back to the object is the returned state.
- UvwPins.PinnedToPointsAsWritten and UvwPins.PinnedToPoints: require that pins name existing UV points, as the host guarantees.
- UvwPins: the `op` type checks and the missing point-selection error are not modelled, and a missing UVW tag is the `hasUvwTag` flag.
- DragArea:
  - drawing is not modelled;
  - the host drag loop is the sequence of `MouseDrag` deltas together with whether the drag finished by a release;
  - the dead weak-reference error of `GetParent` is not modelled;
  - `InputEvent` is only called on a valid, idle area.
- ObjectTree: the host compares objects by identity. `Obj.id` stands for that identity, and the scene is assumed to give every object its own (`UniqueIds`).
- ObjectTree: `TransferAxisTo` (matrix arithmetic) is the returned `TransferTo` value. The popup answer `res` is a parameter, and the label markup becomes the entry's name and type id.
- MoDataColor: `GeGetMoData` is the `md` parameter and `MG_LINEAR_OFFSET` the `offset` parameter.
- GraphTree: `NODE_KIND` values are constructors. The maxon graph is a tree of values.
- Xpresso: `ID_OPERATOR_CONST` is a parameter, and `GetUp` is the parent name handed down by the walk.

## Findings

| source | as written | input that shows it | evidently intended | confidence | as-written member | corrected member |
|---|---|---|---|---|---|---|
| plugins/py-cmd_gui_resources_2024/unicode_encode_strings.py:155 | decodes `content.encode("utf-8")` with `unicode_escape`, so non-ASCII text is read back byte by byte as Latin-1 | a file holding "ä" becomes "Ã¤" (C3 A4); a second decode run corrupts already decoded files | resolve only the escapes and keep every other character, so decoding is the reverse of encoding and decoding twice changes nothing | not executed | ResourceEscape.DecodeAsWrittenGarblesNonAscii | ResourceEscape.DecodeWithoutEscapesIsIdentity |
| scripts/03_application_development/gui/dialog/geuserarea_drag_r13.py:274 | the guard returns only when the event is neither from the mouse `and` nor on the left channel | a right-button mouse event passes the guard and starts a drag | handle left mouse clicks only (`or`) | not executed | DragArea.GuardLetsOtherButtonsThrough | DragArea.DraggingArea.InputEvent |
| scripts/04_3d_concepts/modeling/uvw_tag/uvwtag_retrieve_uv_point_pinned_s22_114.py:74 | reads the pin selection with `GetAll(op.GetPointCount())` | two quads sharing an edge (6 points, 8 UV points) with UV point 6 pinned select no point | read all `4 * polygonCount` UV points | not executed | UvwPins.PointCountLimitLosesPins | UvwPins.PinnedToPoints |
