# cg-opengl viewer core in Dafny

This project models the core of a small OpenGL scene viewer written in C++. It covers:

- the Wavefront OBJ loader and its MTL (material library) reader;
- the `Model`, `Mesh` and `Material` classes;
- the renderer's model registry and its two-pass frame, with opaque meshes first and transparent meshes second;
- the reference grid;
- the keyboard and mouse input state machine.

Several things are modelled by what they leave behind:

- **OpenGL.** Calls to OpenGL are modelled by the events they append to a ghost log kept by `Gl.GlDevice`. That log records names generated and deleted, buffers filled, state set and draws issued. Each draw is recorded with the program, transform and shading it was issued under.
- **Matrices.** A matrix is a symbolic product of named factors: translate, rotate about X/Y/Z, scale and mesh-local. So `T * Rx * S` is the sequence `[Translate, RotateX, ScaleBy]` and the identity is `[]`.
- **Camera and window.** The camera (`Inputs.Camera`) records the calls it receives. The window (`Inputs.Window`) holds the key states GLFW would report.
- **Files.** A file system is a `map` from path to lines.

Modules:

- `Text`: trimming, tokenising, splitting, integer and real parsing, lower-casing and paths.
- `ObjSyntax`: line classification, face references, index resolution, vertex keys and fan triangulation.
- `ObjParse`: the OBJ loader as a fold of line directives over a parse state, the known materials and the current material, with the invariants it keeps and the material each mesh receives.
- `Loader`: the loader's imperative code, proved against `ObjParse`.
- `Materials` and `Mtl`: the material class and the MTL reader.
- `Meshes`: meshes and their GL objects.
- `Geometry`: the symbolic vectors and matrices.
- `ParentForest`: the mesh parent table.
- `Models`: the model class.
- `Render`: the renderer.
- `Grids`: the reference grid.
- `Inputs`: keyboard and mouse input.
- `Gl`: the OpenGL device log.
- `Wrappers`: the Option datatype.

## Model

| member | source | states |
|---|---|---|
| Text.TrimLeftSuffix | src/render/ModelLoader.cpp:430-434 | trimming on the left drops only leading whitespace (space, tab, CR, LF) and stops at the first other character |
| Text.TrimRightPrefix | src/render/ModelLoader.cpp:436-437 | trimming on the right drops only trailing whitespace and stops at the last other character |
| Text.TrimSlice | src/render/ModelLoader.cpp:430-438 | `trim` returns the slice of the input between its first and last non-whitespace characters |
| Text.TrimIdempotent | src/render/ModelLoader.cpp:430-438 | trimming a trimmed string changes nothing |
| Text.WordLength | src/render/ModelLoader.cpp:221 | the word `>>` extracts is the longest run of non-space characters |
| Text.Tokens | src/render/ModelLoader.cpp:221-224 | the words read one after another with `>>` are all non-empty and space-free |
| Text.TokensUnwords | src/render/ModelLoader.cpp:221-224 | reading the words of space-separated words gives back exactly those words |
| Text.Split | src/render/ModelLoader.cpp:440-452 | `split` of the empty string yields no field, and any other string yields at least one |
| Text.SplitFieldsHaveNoDelimiter | src/render/ModelLoader.cpp:440-452 | no field of `split` contains the delimiter |
| Text.SplitJoinWith | src/render/ModelLoader.cpp:440-452 | splitting fields joined by the delimiter gives the fields back when the last one is non-empty (`getline` drops a trailing empty field) |
| Text.NatToString | src/render/ModelLoader.cpp:259 | `to_string` of a natural number is a non-empty run of decimal digits |
| Text.IntToString | src/render/ModelLoader.cpp:353-355 | `to_string` of an integer is non-empty and contains no '/' |
| Text.ParseIntToString | src/render/ModelLoader.cpp:310 | `stoi(to_string(i)) == i` for every integer |
| Text.IntToStringInjective | src/render/ModelLoader.cpp:353-355 | different integers print differently |
| Text.NatToStringInjective | src/render/ModelLoader.cpp:278 | different mesh numbers give different decimal suffixes |
| Text.ParseRealOfNat | src/render/ModelLoader.cpp:160 | a decimal natural number reads as that number |
| Text.ParseRealOfInt | src/render/ModelLoader.cpp:160 | a decimal integer, signed or not, reads as that number |
| Text.ToLower | src/render/ModelLoader.cpp:646-647 | lower-casing keeps the length and maps each character on its own |
| Text.ToLowerIdempotent | src/render/ModelLoader.cpp:646-647 | lower-casing twice is lower-casing once |
| Text.ContainsOccurs | src/render/ModelLoader.cpp:651 | `find(sub) != npos` exactly when `sub` occurs at some position |
| Text.LastIndexOfCharSpec | src/render/ModelLoader.cpp:464-465 | the last '/' of a path is found: it is that character and none follows it, or -1 when there is none |
| Text.FileNameHasNoSlash | src/render/ModelLoader.cpp:48-49 | the file-name part of a path holds no '/' |
| Text.StemHasNoSlash | src/render/ModelLoader.cpp:48-49 | the stem used as the default model name holds no '/' |
| ObjSyntax.FirstToken | src/render/ModelLoader.cpp:155-157 | the first word of a trimmed line is its leading run of non-space characters |
| ObjSyntax.Classify | src/render/ModelLoader.cpp:110-150 | a non-ignored line has at least 2 characters, is not a comment, and its first word is the directive whose handler is chosen (`v`, `vn…`, `vt…`, `f`, `o`, `mtllib…`, `usemtl…`) |
| ObjSyntax.ReadVec3 | src/render/ModelLoader.cpp:153-192 | a `v`/`vn` line yields a vector exactly when three numbers follow the directive |
| ObjSyntax.ReadTexCoord | src/render/ModelLoader.cpp:194-210 | a `vt` line is accepted exactly when `u` reads; `u` is kept and a missing or malformed `v` is 0 |
| ObjSyntax.NormalOf | src/render/ModelLoader.cpp:179-186 | a stored normal is the zero vector exactly when the raw vector is zero; otherwise it is the normalised direction |
| ObjSyntax.Component | src/render/ModelLoader.cpp:308-321 | one slash-separated component is omitted when missing or empty, a number when `stoi` accepts it, and a failure exactly when a non-empty component is not a number |
| ObjSyntax.ParseFaceRef | src/render/ModelLoader.cpp:302-324 | a face reference parses exactly when its position, texture and normal components all parse, in the sense of `ObjSyntax.Component` |
| ObjSyntax.PositionNormalReference | src/render/ModelLoader.cpp:302-324 | `1//3` reads as position 1, normal 3, texture coordinate omitted (-1) |
| ObjSyntax.ParseFaceIndex | src/render/ModelLoader.cpp:302-324 | `parseFaceIndex` as written: succeeds exactly when the reference parses, with an omitted component stored as -1 |
| ObjSyntax.ResolveIndex | src/render/ModelLoader.cpp:326-349 | index resolution: positive `i` becomes `i-1`; negative `i` counts from the end (`count+i`) while that stays in range; 0 stays 0; a negative index that runs past the start becomes `count+i+1` (count 2, i = -5 gives -2) |
| ObjSyntax.MakeAbsolute | src/render/ModelLoader.cpp:326-349 | `makeAbsolute` as written resolves all three components, including the -1 of an omitted one |
| ObjSyntax.OmittedComponentTakesLast | src/render/ModelLoader.cpp:329-340 | as written, the reference `1` resolves its omitted texture coordinate and normal to the last ones declared |
| ObjSyntax.Resolve | src/render/ModelLoader.cpp:326-349 | corrected resolution: omitted components stay -1, given ones resolve as `makeAbsolute` does |
| ObjSyntax.ResolveAgreesWhenComplete | src/render/ModelLoader.cpp:326-349 | on references with all three components the corrected resolution equals `makeAbsolute` |
| ObjSyntax.GetKeySplits | src/render/ModelLoader.cpp:351-356 | a vertex key splits on '/' into the decimal forms of its three indices |
| ObjSyntax.GetKeyInjective | src/render/ModelLoader.cpp:351-356 | equal keys come only from equal references, so the vertex map never merges different references |
| ObjSyntax.FanUpTo | src/render/ModelLoader.cpp:236-242 | the first n corners contribute `3(n-2)` indices |
| ObjSyntax.FanUpToCorners | src/render/ModelLoader.cpp:236-242 | triangle t of the loop is corners (0, t+1, t+2) |
| ObjSyntax.Fan | src/render/ModelLoader.cpp:233-243 | fewer than three corners give no triangle; otherwise n-2 triangles |
| ObjSyntax.FanCorners | src/render/ModelLoader.cpp:233-243 | triangle t of the fan is corners (0, t+1, t+2) |
| ObjSyntax.FanUpToPrefix | src/render/ModelLoader.cpp:236-242 | the loop's output after n corners depends only on those n corners |
| ObjSyntax.QuadFan | src/render/ModelLoader.cpp:235 | a quad a b c d becomes the triangles a b c and a c d |
| ObjSyntax.MeshName | src/render/ModelLoader.cpp:275-279 | a mesh name is never empty; it is the object name when there is one |
| ObjParse.ParseRefs | src/render/ModelLoader.cpp:221-224 | a face line's references all parse or the line fails, and when they parse they correspond one to one |
| ObjParse.ReadDirectiveShape | src/render/ModelLoader.cpp:108-151 | a line is skipped exactly when it is blank, a comment, too short or unknown; a face line carries its references; an `o` line names an object exactly when text follows "o " |
| ObjParse.BuildVertex | src/render/ModelLoader.cpp:369-388 | a new vertex takes each attribute whose index lies in its pool and keeps the zero default otherwise |
| ObjParse.OmittedAttributesStayDefault | src/render/ModelLoader.cpp:378-388 | with the corrected resolution, a corner omitting its texture coordinate or normal gets the zero default |
| ObjParse.ResolveAll | src/render/ModelLoader.cpp:227-230 | every reference of a face is resolved against the pool sizes when the face is read |
| ObjParse.AddCornerFrame | src/render/ModelLoader.cpp:358-395 | one corner keeps the pools and existing vertices, maps its key, pushes that key's vertex and adds a vertex only for a new key |
| ObjParse.AddCornerConsistent | src/render/ModelLoader.cpp:358-395 | one corner keeps the vertex map, the vertices and the indices consistent |
| ObjParse.AddCornersFrame | src/render/ModelLoader.cpp:236-242 | a run of corners keeps the pools, the existing vertices and the existing keys |
| ObjParse.AddCornersKeys | src/render/ModelLoader.cpp:236-242 | a run of corners adds exactly its own references to the vertex map |
| ObjParse.AddCornersIndices | src/render/ModelLoader.cpp:236-242 | a run of corners pushes the vertex index of each reference, in order |
| ObjParse.AddCornersConsistent | src/render/ModelLoader.cpp:236-242 | a run of corners keeps the state consistent |
| ObjParse.IdsOfFan | src/render/ModelLoader.cpp:236-242 | looking vertex indices up commutes with fan triangulation |
| ObjParse.FanUsesEveryCorner | src/render/ModelLoader.cpp:233-243 | every corner of a polygon with three or more corners appears in its fan, and nothing else does |
| ObjParse.AddCornersVertices | src/render/ModelLoader.cpp:358-395 | each corner's vertex is the one its key already had, or one built from the reference against the pools |
| ObjParse.FaceUpdateSpec | src/render/ModelLoader.cpp:212-244 | `parseFace` appends the fan of the deduplicated vertex indices, maps exactly the face's references, keeps pools and existing vertices, and changes nothing for fewer than three references |
| ObjParse.FaceUpdateWellIndexed | src/render/ModelLoader.cpp:212-244 | a face keeps the mesh in whole triangles of valid indices, with every vertex keyed once and used |
| ObjParse.FaceSharesOnlyEqualReferences | src/render/ModelLoader.cpp:358-367 | two corners of a face share a vertex exactly when they resolve to the same reference |
| ObjParse.ShadeTriangle | src/render/ModelLoader.cpp:402-425 | one iteration gives the three vertices of a complete triangle its face normal and changes no position, texture coordinate or other vertex; an incomplete triangle changes nothing |
| ObjParse.FlatNormalsUpTo | src/render/ModelLoader.cpp:400-427 | the loop keeps the number of vertices and every position and texture coordinate |
| ObjParse.LastTouch | src/render/ModelLoader.cpp:400-427 | the last complete triangle using a vertex, or -1 when none does |
| ObjParse.FlatNormalsLastWriter | src/render/ModelLoader.cpp:397-428 | after `calculateNormals` every vertex has the face normal of the last complete triangle using it, and keeps its normal when none does |
| ObjParse.FinalizeShape | src/render/ModelLoader.cpp:265-300 | `finalizeMesh` does nothing to an empty mesh; otherwise it appends one mesh with the current indices, as many vertices, its name and the current material (or, with none, its name's preset, absent exactly when no preset is detected), and clears the current mesh and the current material but not the pools or the known materials |
| ObjParse.FinishedVertices | src/render/ModelLoader.cpp:270-273 | normal computation keeps the vertex count |
| ObjParse.VerticesIffIndices | src/render/ModelLoader.cpp:267 | in a consistent state the current mesh has vertices exactly when it has indices |
| ObjParse.DefaultObjectName | src/render/ModelLoader.cpp:259 | an unnamed object gets a non-empty name |
| ObjParse.Directives | src/render/ModelLoader.cpp:59-79 | one directive per line of the file |
| ObjParse.FinalizeKeeps | src/render/ModelLoader.cpp:265-300 | finishing a well-indexed mesh yields a drawable mesh and an empty current one |
| ObjParse.ObjStepKeeps | src/render/ModelLoader.cpp:108-151 | every directive keeps the invariant and never changes a finished mesh |
| ObjParse.ParseStepKeeps | src/render/ModelLoader.cpp:121-136 | the `v`, `vn`, `vt` and `f` handlers keep the current mesh well indexed |
| ObjParse.ObjStepExtends | src/render/ModelLoader.cpp:108-151 | a directive keeps the finished meshes as a prefix |
| ObjParse.MeshCountGrows | src/render/ModelLoader.cpp:59-79 | the number of finished meshes never falls while the lines are read |
| ObjParse.KnownIsLibrariesRead | src/render/ModelLoader.cpp:454-479 | after any number of lines the known materials are exactly those of the `mtllib` libraries named so far, merged in order with a later library's material replacing an earlier one of the same name |
| ObjParse.CurrentPersists | src/render/ModelLoader.cpp:481-502 | the current material changes only at a `usemtl` line with a name or when a mesh is finished |
| ObjParse.LastSelectionWins | src/render/ModelLoader.cpp:282-288 | the last `usemtl name` before a mesh is finished decides its material: the one of that name among the libraries read before that line, else a default material of that name; this holds for a mesh finished by an `o` line and at the end of the file |
| ObjParse.NoSelectionMeansPreset | src/render/ModelLoader.cpp:282-298 | after a mesh is finished the current material is cleared, so a mesh with no `usemtl` naming a material since gets its name's preset, or none |
| ObjParse.PresetsUpTo | src/render/ModelLoader.cpp:282-288 | without any `usemtl` naming a material, the current material stays absent and every finished mesh has its name's preset |
| ObjParse.NoSelectionAllPresets | src/render/ModelLoader.cpp:26-106 | a file with no `usemtl` line naming a material gives every loaded mesh the preset its name selects, or none, whatever libraries it reads |
| ObjParse.ObjUpToKeeps | src/render/ModelLoader.cpp:59-79 | the invariant holds after any number of lines |
| ObjParse.ObjMeshesDrawable | src/render/ModelLoader.cpp:26-106 | every mesh loaded from any file has a triangle, whole triangles, indices inside its vertex list, and a name |
| Loader.ParseData.constructor | include/render/ModelLoader.h:64-76 | fresh parse data is empty, with no materials and no current material |
| Loader.GetOrCreateVertex | src/render/ModelLoader.cpp:358-395 | the returned index and new state are those of `ObjParse.GetOrCreate` |
| Loader.PushCorner | src/render/ModelLoader.cpp:239-241 | one corner updates the state as `ObjParse.AddCorner` |
| Loader.PushTriangle | src/render/ModelLoader.cpp:239-241 | one triangle adds its three corners in order |
| Loader.FanTriangle | src/render/ModelLoader.cpp:236-242 | one loop turn extends the state from the fan's first n corners to its first n+1 corners |
| Loader.ResolveFace | src/render/ModelLoader.cpp:227-230 | the resolved references are `ObjParse.ResolveAll` of the references |
| Loader.Triangulate | src/render/ModelLoader.cpp:233-243 | the triangulation adds the corners of the whole fan |
| Loader.FanLoop | src/render/ModelLoader.cpp:236-242 | the loop adds the corners of triangles (0, i-1, i) for i from 2 |
| Loader.ParseFace | src/render/ModelLoader.cpp:212-244 | a face line updates the state as `ObjParse.FaceUpdate`; a malformed reference leaves it unchanged |
| Loader.CalculateNormals | src/render/ModelLoader.cpp:397-428 | the vertices become `ObjParse.FlatNormals` of the old vertices and the indices |
| Loader.MeshMaterial | src/render/ModelLoader.cpp:282-288 | a mesh gets the current material object, or else the one detected from its name (fresh, or none); its state is `ObjParse.MeshMaterialOf` of the current material's state |
| Loader.AddNewMesh | src/render/ModelLoader.cpp:290-291 | a fresh mesh with the given data, name and material is appended to the model, and the meshes' data gain exactly that mesh's data and material state |
| Loader.FinalizeMesh | src/render/ModelLoader.cpp:265-300 | the loader state, the known materials, the current material and the model's meshes with their materials follow `ObjParse.Finalize`; earlier meshes are kept and the new one is fresh |
| Loader.HandOver | src/render/ModelLoader.cpp:269-298 | the mesh is handed to the model carrying the current material object (or its name's preset), and the per-mesh state and the current material are cleared |
| Loader.PrepareMesh | src/render/ModelLoader.cpp:269-288 | the finished vertices, the indices, the mesh name and the material `finalizeMesh` gives the mesh, with only the current vertices changed |
| Loader.FinishVertices | src/render/ModelLoader.cpp:270-273 | normals are computed only when the file declared none |
| Loader.ClearCurrent | src/render/ModelLoader.cpp:293-298 | the current vertices, indices, map, object name and material are cleared; the pools stay |
| Loader.ParseObject | src/render/ModelLoader.cpp:246-263 | an `o` line finishes the current mesh (material included) and names the next one, as `ObjParse.ObjStep` |
| Loader.NameObject | src/render/ModelLoader.cpp:252-262 | the next object's name is the one the line gives, else "Objeto_<k>"; nothing else changes |
| Loader.ParseMaterialLib | src/render/ModelLoader.cpp:454-479 | the library next to the OBJ file is loaded and its materials replace or join the known ones, the known states becoming the old ones merged with `ObjParse.Library`; a missing operand or unreadable file changes nothing; the parse state and the current material never change |
| Loader.DataOfMerge | src/render/ModelLoader.cpp:470-474 | adding a library's materials by name merges their states by name |
| Loader.ParseUseMaterial | src/render/ModelLoader.cpp:481-502 | a known name selects its material; an unknown one selects a fresh default material of that name; no operand changes nothing; the current material's state is `ObjParse.UsedMaterial` of the known states; the parse state and known materials never change |
| Loader.ParseLine | src/render/ModelLoader.cpp:108-151 | one line updates the parse state, the known and current materials and the meshes with their materials as `ObjParse.ObjStep` of the line's directive |
| Loader.Dispatch | src/render/ModelLoader.cpp:119-150 | each directive's handler updates the parse state, materials and meshes as `ObjParse.ObjStep`, a throwing handler changing nothing |
| Loader.ParseOther | src/render/ModelLoader.cpp:141-148 | every directive but `o` (the material ones included) updates the parse state, the known materials and the current material as `ObjParse.ObjStep` |
| Loader.ParseGeometry | src/render/ModelLoader.cpp:121-136 | the `v`, `vn`, `vt` and `f` handlers update the state as `ObjParse.ParseStep` and leave the known and current materials alone |
| Loader.ReadLines | src/render/ModelLoader.cpp:59-79 | after the reading loop the state, the materials and the meshes are the fold of every line's directive |
| Loader.ReadLineAt | src/render/ModelLoader.cpp:69-78 | one loop turn advances the fold by one line |
| Loader.LoadedMeshesWellFormed | src/render/ModelLoader.cpp:26-106 | meshes holding the loaded data are well formed, non-empty and named, and each material's state is the loaded mesh's material |
| Loader.ReadModel | src/render/ModelLoader.cpp:53-83 | the model's meshes, with their materials, are exactly those the fold of the file's lines produces, the last mesh finished |
| Loader.BuildModel | src/render/ModelLoader.cpp:52-83 | a fresh model of the given name holds exactly the loaded meshes, each drawable and carrying the loaded material |
| Loader.LoadModel | src/render/ModelLoader.cpp:26-106 | null exactly when the file cannot be opened, with zero statistics; otherwise a fresh model named by the argument or the file's stem, with exactly the meshes the file defines, all drawable and each with the material the file gives it, and statistics equal to its totals |
| Materials.Clamp01 | src/render/Material.cpp:35 | `clamp(a, 0, 1)`: within [0,1], the identity there, 0 below and 1 above |
| Materials.KindAfterAlpha | src/render/Material.cpp:37-45 | emissive stays emissive; otherwise the type is transparent exactly when the opacity is below 1 |
| Materials.WithAlpha | src/render/Material.cpp:33-46 | `setAlpha` stores the clamped opacity, changes nothing but opacity and type, and the material is transparent exactly when that opacity is below 1 |
| Materials.DefaultData | src/render/Material.cpp:8-11 | the default material keeps its name and is neither transparent nor emissive |
| Materials.TypedData | src/render/Material.cpp:13-31 | a typed material has that type and name, and is transparent or emissive exactly when the type says so |
| Materials.GlassData | src/render/Material.cpp:48-62 | glass has the clamped opacity, the tint, index 1.52, is transparent exactly when the opacity is below 1, and is not emissive |
| Materials.MetalData | src/render/Material.cpp:64-73 | metal has 30% of the colour as albedo, the colour as specular, the given shininess, and is opaque and not emissive |
| Materials.PlasticData | src/render/Material.cpp:75-84 | plastic has the colour, shininess 16, and is opaque and not emissive |
| Materials.Material.constructor | src/render/Material.cpp:8-11 | the state is the default material of that name |
| Materials.Material.OfType | src/render/Material.cpp:13-31 | the state is the typed material |
| Materials.Material.SetAlbedo | include/render/Material.h:54 | stores the albedo |
| Materials.Material.SetSpecular | include/render/Material.h:60 | stores the specular colour |
| Materials.Material.SetShininess | include/render/Material.h:66 | stores the shininess |
| Materials.Material.SetEmissive | include/render/Material.h:78 | stores the emission |
| Materials.Material.SetIndexOfRefraction | include/render/Material.h:84 | stores the index of refraction |
| Materials.Material.SetAlpha | src/render/Material.cpp:33-46 | the state becomes `WithAlpha` of the old state |
| Materials.Material.CreateGlass | src/render/Material.cpp:48-62 | a fresh material whose state is `GlassData` |
| Materials.Material.CreateMetal | src/render/Material.cpp:64-73 | a fresh material whose state is `MetalData` |
| Materials.Material.CreatePlastic | src/render/Material.cpp:75-84 | a fresh material whose state is `PlasticData` |
| Mtl.DetectPreset | src/render/ModelLoader.cpp:644-707 | in the lower-cased name, glass/vidro wins, then metal/steel, then light/lamp, then plastic; none otherwise |
| Mtl.DetectPresetIgnoresCase | src/render/ModelLoader.cpp:646-647 | a name and its lower-cased form select the same preset |
| Mtl.LightData | src/render/ModelLoader.cpp:676-693 | the light preset keeps the name, is emissive with the given emission, and is opaque |
| Mtl.PresetData | src/render/ModelLoader.cpp:651-703 | only glass is transparent (opacity 0.4) and only light is emissive; the factory names except for light |
| Mtl.NewMaterialData | src/render/ModelLoader.cpp:551-572 | a `newmtl` material is the default when no preset is detected, and is transparent exactly for glass |
| Mtl.OnlyGlassNamesAreTransparent | src/render/ModelLoader.cpp:551-572 | a freshly defined material is transparent exactly when its lower-cased name mentions glass or vidro |
| Mtl.ReadScalar | src/render/ModelLoader.cpp:601-632 | a scalar property is the number after the directive |
| Mtl.ReadProperty | src/render/ModelLoader.cpp:573-634 | unknown directives and malformed operands change nothing; only `d` and `Tr` set the opacity, and `Tr` sets `1 - value` |
| Mtl.SetProperty | src/render/ModelLoader.cpp:573-634 | each property sets only its own field, never the name; only opacity changes the type |
| Mtl.MtlTokens | src/render/ModelLoader.cpp:539-549 | blank and comment lines have no tokens |
| Mtl.ReadMtlLine | src/render/ModelLoader.cpp:547-572 | a line defines a material exactly when it is `newmtl` with a name; a bare `newmtl` or empty line is skipped |
| Mtl.MtlStep | src/render/ModelLoader.cpp:535-635 | `newmtl` makes its name current and adds it; other lines keep the current name and the key set; names are never changed |
| Mtl.MtlLines | src/render/ModelLoader.cpp:518-529 | one read line per file line |
| Mtl.MtlKeys | src/render/ModelLoader.cpp:504-533 | the loaded names are exactly those some `newmtl` line defined, and the current name is empty or defined |
| Mtl.MtlNames | src/render/ModelLoader.cpp:551-634 | property lines never rename: each material keeps the name its `newmtl` line gave it, which for the glass, metal and plastic presets is the factory's name rather than the `newmtl` name |
| Mtl.DataOf | src/render/ModelLoader.cpp:504-533 | the materials' states, by the same names |
| Mtl.CreateDefaultMaterial | src/render/ModelLoader.cpp:637-642 | a fresh default material of that name |
| Mtl.DetectMaterialFromName | src/render/ModelLoader.cpp:644-707 | null exactly when no preset is detected; otherwise a fresh material in the preset's state |
| Mtl.NewMaterial | src/render/ModelLoader.cpp:557-570 | a fresh material in state `NewMaterialData` |
| Mtl.SetPropertyOf | src/render/ModelLoader.cpp:575-632 | the material's state becomes `SetProperty` of its old state |
| Mtl.ParseMaterialLine | src/render/ModelLoader.cpp:535-635 | the materials' states and the current name follow `MtlStep`; materials stay distinct objects, each old or fresh |
| Mtl.ApplyMtlLine | src/render/ModelLoader.cpp:551-634 | the same, once the line is read |
| Mtl.DefineMaterial | src/render/ModelLoader.cpp:559-570 | the name now maps to a fresh material in state `NewMaterialData`; the others are unchanged |
| Mtl.AdjustMaterial | src/render/ModelLoader.cpp:573-634 | only the current material's state changes, by `SetProperty` |
| Mtl.LoadMaterials | src/render/ModelLoader.cpp:504-533 | nothing when the file cannot be opened; otherwise distinct fresh materials whose states are exactly those the file defines |
| Meshes.Releases | src/render/Mesh.cpp:119-137 | `cleanup` deletes exactly the non-zero names among element buffer, vertex buffer and vertex array, at most three |
| Meshes.Mesh.constructor | src/render/Mesh.cpp:7-22 | stores the data and material and generates vertex array, vertex buffer and element buffer, in that order |
| Meshes.Mesh.MoveFrom | src/render/Mesh.cpp:29-37 | move construction takes the data and names and leaves the source empty with zero names |
| Meshes.Mesh.TriangleCount | include/render/Mesh.h:64 | the triangle count is the number of indices divided by 3, rounded down |
| Meshes.Mesh.Draw | src/render/Mesh.cpp:107-117 | one draw of all the indices from the mesh's vertex array |
| Meshes.Mesh.Cleanup | src/render/Mesh.cpp:119-137 | deletes the names still held and zeroes them, so a second call deletes nothing |
| Meshes.Mesh.MoveAssign | src/render/Mesh.cpp:39-61 | self-assignment changes nothing; otherwise releases its own names, takes the other's data and names, and zeroes the other's names |
| Geometry.Rotation | src/render/Model.cpp:78-90 | at most three factors, all axis rotations; the X factor is present exactly when its angle is non-zero, and so is the Z factor |
| Geometry.RotationFactors | src/render/Model.cpp:78-90 | the Y factor is present exactly when `rotation.y != 0`; each factor holds its own axis's angle; the factors come in X, Y, Z order |
| Geometry.Placement | src/render/Model.cpp:63-99 | translation first, scale last, and no rotation factor when all angles are zero |
| ParentForest.ChainToRoot | src/render/Model.cpp:163-174 | the chain `accumulateLocalUpToRoot` collects holds only valid mesh indices |
| ParentForest.ChainToRootIs | src/render/Model.cpp:170-174 | any walk that reaches the root gives the same chain |
| ParentForest.ChainToRootStep | src/render/Model.cpp:170-174 | a chain is the mesh followed by its parent's chain, and a root's chain is the root alone |
| ParentForest.AppendRootKeepsForest | src/render/Model.cpp:20 | appending a parentless mesh keeps the table acyclic |
| ParentForest.ReparentKeepsForest | src/render/Model.cpp:129-150 | the cycle check is sound: a parent that is neither the child nor its descendant keeps the table acyclic |
| ParentForest.ReparentOntoDescendantBreaksForest | src/render/Model.cpp:136-146 | the cycle check is complete: a parent that is the child or its descendant would create a cycle |
| ParentForest.SelfIsOnChain | src/render/Model.cpp:138-144 | a mesh is refused as its own parent |
| ParentForest.TwoCycleRejected | src/render/Model.cpp:136-146 | after a becomes b's child, b cannot become a's child |
| ParentForest.GrandchildChain | src/render/Model.cpp:163-181 | the chain of a grandchild g of c of root r is g, c, r |
| Models.MatrixCache.constructor | include/render/Model.h:124-125 | the cached matrix starts as the identity, marked stale |
| Models.FirstIndex | src/render/Model.cpp:153-161 | the first position holding the element, or -1 exactly when it is absent |
| Models.FirstNamed | src/render/Model.cpp:113-118 | the first mesh with the name, or -1 exactly when none has it |
| Models.TotalsAdditive | src/render/Model.cpp:183-207 | the triangle and vertex totals of joined mesh lists add up |
| Models.DrawsOf | src/render/Model.cpp:24-34 | one draw per mesh, in order, each with that mesh's vertex array and index count |
| Models.Model.constructor | src/render/Model.cpp:7-11 | an empty model with that name, at the origin, unrotated, unit scale, stale cache |
| Models.Model.AddMesh | src/render/Model.cpp:13-22 | a non-null mesh is appended with no parent; null is ignored |
| Models.Model.Draw | src/render/Model.cpp:24-34 | draws every mesh in order |
| Models.Model.SetPosition | src/render/Model.cpp:36-43 | stores the position and marks the cache stale only when it changed |
| Models.Model.SetRotation | src/render/Model.cpp:45-52 | stores the rotation and marks the cache stale only when it changed |
| Models.Model.SetScale | src/render/Model.cpp:54-61 | stores the scale and marks the cache stale only when it changed |
| Models.Model.GetModelMatrix | src/render/Model.cpp:63-99 | returns the placement matrix and leaves the cache current |
| Models.Model.IndexOf | src/render/Model.cpp:153-161 | the first slot holding the mesh, or -1 |
| Models.Model.FindMeshByName | src/render/Model.cpp:115-116 | the first mesh with the name, or null |
| Models.Model.SetParent | src/render/Model.cpp:120-151 | succeeds exactly when the child is in the model and the parent is null or in the model and not the child or its descendant; only then the child's entry changes, and the table stays acyclic |
| Models.Model.SetParentByName | src/render/Model.cpp:113-118 | `setParent` on the first meshes with the two names, a missing parent making the child a root |
| Models.Model.CollectChain | src/render/Model.cpp:169-174 | the indices from the mesh up to its root |
| Models.Model.AccumulateLocalUpToRoot | src/render/Model.cpp:163-181 | the product of the local transforms from the root down to the mesh |
| Models.Model.GetWorldMatrixForMesh | src/render/Model.cpp:101-111 | the placement for a mesh the model does not hold; the placement times the chain product otherwise |
| Models.Model.GetTotalTriangleCount | src/render/Model.cpp:183-194 | the sum of the meshes' triangle counts |
| Models.Model.GetTotalVertexCount | src/render/Model.cpp:196-207 | the sum of the meshes' vertex counts |
| Models.UnparentedWorldMatrix | src/render/Model.cpp:101-111 | a root mesh is placed by the model's placement and its own local transform |
| Models.RootChainProduct | src/render/Model.cpp:175-179 | a root's chain product is its local transform |
| Models.GrandchildWorldMatrix | src/render/Model.cpp:109-110 | a grandchild is placed by placement * local(root) * local(parent) * local(itself) |
| Render.AutoId | src/render/Renderer.cpp:331-334 | an automatic id is "modelo_" followed by more characters |
| Render.AutoIdsDistinct | src/render/Renderer.cpp:331-334 | automatic ids are equal exactly when the counter values are |
| Render.EraseAtFirstIndex | src/render/Renderer.cpp:190-194 | find-then-erase removes the element at the first index of the id, and nothing when it is absent |
| Render.EraseMissing | src/render/Renderer.cpp:190-194 | when `find` reaches the end nothing is erased: the order is unchanged |
| Render.EraseKeepsListing | src/render/Renderer.cpp:211-215 | removing an id from the drawing order lists the other registered ids |
| Render.AppendKeepsListing | src/render/Renderer.cpp:199-200 | appending a new id lists it too |
| Render.ListingSize | include/render/Renderer.h:115-116 | the drawing order has one entry per registered model |
| Render.TallyErase | src/render/Renderer.cpp:301-317 | removing one id from the sum subtracts exactly its figures |
| Render.TallyOrderFree | src/render/Renderer.cpp:305-314 | summing along any listing of the registered ids gives the same totals |
| Render.AddedModelAdds | src/render/Renderer.cpp:171-201 | registering a model under a new id adds exactly its figures to the totals |
| Render.RemovedModelSubtracts | src/render/Renderer.cpp:203-223 | removing a registered id subtracts exactly its model's figures |
| Render.ShadingFor | src/render/Renderer.cpp:414-491 | the shading is blended exactly in the transparent pass and uses the material's albedo, or the pass defaults without a material |
| Render.LookOf | src/render/Renderer.cpp:420 | a mesh's pass is its material's transparency |
| Render.Looks | src/render/Renderer.cpp:418 | one look per mesh, in storage order |
| Render.PassDrawsShape | src/render/Renderer.cpp:418-435 | every draw of a pass is under the pass's program, the model's transform, and the blend and depth-write state found |
| Render.PassesPartition | src/render/Renderer.cpp:420 | every mesh is drawn by exactly one of the two passes |
| Render.ScenePassShape | src/render/Renderer.cpp:250-257 | every draw of a pass over the models is under the pass's program, blend and depth-write state |
| Render.PassesDrawEveryMesh | src/render/Renderer.cpp:250-276 | across the two passes every mesh of the scene is drawn exactly once |
| Render.SceneMeshCount | src/render/Renderer.cpp:301-317 | the meshes a frame draws are the meshes `calculateStats` counts |
| Render.OpaqueBeforeTransparent | src/render/Renderer.cpp:235-285 | in a frame every opaque draw precedes every transparent draw |
| Render.BlendingOnlyForTransparent | src/render/Renderer.cpp:261-281 | from the state a frame leaves behind, a draw blends exactly when transparent and writes depth exactly when opaque; the clear covers depth exactly when depth testing is on |
| Render.Renderer.constructor | include/render/Renderer.h:24-30 | an empty registry with default settings and the counter at 0 |
| Render.Renderer.AddModel | src/render/Renderer.cpp:171-201 | null is ignored; an empty id takes the next automatic id; the model is stored and its id moves to the end of the order |
| Render.Renderer.RemoveModel | src/render/Renderer.cpp:203-223 | true exactly when the id was registered; the id leaves the map and the order |
| Render.Renderer.GetModel | src/render/Renderer.cpp:225-233 | the registered model, or null exactly when the id is unknown |
| Render.Renderer.Clear | src/render/Renderer.cpp:287-293 | no models and the counter back at 0 |
| Render.Renderer.SetRenderSettings | src/render/Renderer.cpp:295-299 | stores and applies the settings |
| Render.Renderer.CalculateStats | src/render/Renderer.cpp:301-317 | the model count and the sums of the meshes, triangles and vertices of the registered models |
| Render.Renderer.Render | src/render/Renderer.cpp:235-285 | the frame's calls are the state, the clear, the opaque pass, blending on and depth writes off, the transparent pass, the restore; then no program is bound |
| Render.SumFigures | src/render/Renderer.cpp:305-314 | the loop's sum equals the sum of the registered models' figures |
| Render.Figures | src/render/Renderer.cpp:309-313 | one model's mesh, triangle and vertex counts |
| Render.DrawFrame | src/render/Renderer.cpp:235-285 | the calls of one frame, as `FrameLog` lists them |
| Render.OpaquePhase | src/render/Renderer.cpp:238-265 | state, clear, opaque pass, then blending on and depth writes off |
| Render.EndFrame | src/render/Renderer.cpp:280-284 | depth writes and blending restored, no program bound |
| Render.BeginFrame | src/render/Renderer.cpp:336-386 | the render state applied and the buffers cleared |
| Render.BeginTransparentPass | src/render/Renderer.cpp:261-265 | blending on and depth writes off |
| Render.DrawPass | src/render/Renderer.cpp:250-276 | one pass over the models in drawing order |
| Render.DrawEntry | src/render/Renderer.cpp:252-256 | the pass's draws for one model |
| Render.DrawModel | src/render/Renderer.cpp:388-496 | a pass binds its program and the model's matrix and draws that model's meshes of its kind |
| Render.BindModel | src/render/Renderer.cpp:391-415 | the pass's program, the model's matrix and the pass's default colour |
| Render.DrawMesh | src/render/Renderer.cpp:418-494 | a mesh of the pass's kind is drawn with its shading; others are skipped |
| Render.DrawMeshes | src/render/Renderer.cpp:418-435 | the mesh loop of a pass |
| Grids.GridLinesAt | src/render/Grid.cpp:13-33 | for every i from -h to h the points 4(i+h)..4(i+h)+3 are the line parallel to Z at x = i and the line parallel to X at z = i |
| Grids.SpanInSquare | src/render/Grid.cpp:13-33 | every point lies on y = 0 within the square of half extent h |
| Grids.SpanLines | src/render/Grid.cpp:13-33 | each consecutive pair of points is a whole grid line |
| Grids.GridShape | src/render/Grid.cpp:8-36 | the grid's points lie in its square and pair up into whole grid lines |
| Grids.BuildVertices | src/render/Grid.cpp:10-33 | the floats the loop pushes are the flattened grid points |
| Grids.GridReleases | src/render/Grid.cpp:61-65 | the destructor deletes exactly the non-zero names, buffer then vertex array |
| Grids.Grid.constructor | src/render/Grid.cpp:8-59 | `4(2h+1)` points for h ≥ 0 and none otherwise; a vertex array and a buffer are generated and the buffer filled with the points |
| Grids.Grid.Draw | src/render/Grid.cpp:67-76 | one line draw of all the points |
| Grids.Grid.Release | src/render/Grid.cpp:61-65 | the deletions `GridReleases` lists |
| Inputs.KeyDown | include/input/Input.h:33-36 | a key is down exactly when its reported state is Press |
| Inputs.MoveCallsNet | src/input/Input.cpp:27-41 | net forward movement is v·W − v·S and net rightward v·D − v·A, one call per key held |
| Inputs.ToggleStep | src/input/Input.cpp:51-56 | capture flips exactly on a rising edge of C; the previous-key flag becomes the current state; capturing re-arms first-movement suppression |
| Inputs.ToggleRunFlips | src/input/Input.cpp:51-56 | over any run of frames capture flips once per rising edge of C |
| Inputs.HeldKeyTogglesOnce | src/input/Input.cpp:51-56 | holding C down from released toggles capture exactly once |
| Inputs.HeldAfterPressNoEdge | src/input/Input.cpp:51-56 | a key held down produces no rising edge |
| Inputs.MouseStep | src/input/Input.cpp:59-83 | nothing happens while the cursor is free; otherwise the position is recorded and an offset is produced exactly when it is not the first movement |
| Inputs.OffsetsTelescope | src/input/Input.cpp:59-83 | over a captured run the offsets sum to the last position minus the first recorded one (y upward) |
| Inputs.Input.constructor | include/input/Input.h:47-58 | the defaults: position 0, first movement suppressed, cursor free, keys released, sensitivity 0.1, speed 2.5 |
| Inputs.Input.Init | src/input/Input.cpp:10-22 | captures the cursor and records the framebuffer centre |
| Inputs.Input.ProcessInput | src/input/Input.cpp:24-57 | movement calls for the keys held at `moveSpeed * deltaTime`, close on Escape, and the cursor toggle step on C |
| Inputs.Input.HandleMouseMovement | src/input/Input.cpp:59-83 | the mouse state follows `MouseStep` and the camera receives the offset with the sensitivity |
| Inputs.Input.SetCursorDisabled | src/input/Input.cpp:85-94 | stores the flag, sets the cursor mode, and re-arms suppression when capturing |
| Inputs.Input.SetMouseSensitivity | include/input/Input.h:29 | stores the sensitivity |
| Inputs.Input.SetMoveSpeed | include/input/Input.h:30 | stores the speed |
| Inputs.Move | src/input/Input.cpp:30-41 | one camera call per movement key held, in the order W, S, D, A |

## Left out

- OpenGL and GLFW glue is not modelled: shader compilation and uniforms other than the colour, the buffer uploads and vertex attribute layout in `setupMesh`, `Renderer::init`, the skybox, the shader class, the window and application classes, and the FPS counter.
- The camera's numerics (`Camera.cpp`: yaw, pitch, vectors) are not modelled; the camera records the calls it receives.
- Floating point is modelled by reals. `float` rounding, `normalize`, `cross` and the double-to-float casts of the mouse handler are exact or symbolic.
- Matrices are symbolic products. `Models.Model.GetWorldMatrixForMesh` and `Render` use the placement rather than the numeric values.
- Number parsing accepts plain decimals, an optional sign and an exponent. `stoi`/`istream` also accept a valid prefix followed by junk, and such a line is refused here.
- Integers are unbounded. The 32-bit `int` of face indices and of the grid's half extent (overflow at `INT_MIN`/`INT_MAX`), and the `GLsizei` cast of counts, are not modelled.
- Paths use '/' only. `std::filesystem` normalisation is not modelled.
- Timing (`chrono`), console logging and the statistics printer are left out. The loader's static statistics are returned as a value.
- Destructors run implicitly in C++. Here `Meshes.Mesh.Cleanup` and `Grids.Grid.Release` are called explicitly.
- Shared ownership of materials (`shared_ptr`) is modelled by object references.
- The vertex map is keyed by the resolved reference. The string key is shown injective by `ObjSyntax.GetKeyInjective`.
- Loader.LoadModel: does not state that the mesh objects it creates are distinct from those of other models.
- ObjParse.ResolveAll, Loader.ResolveFace, Loader.ParseFace and Loader.LoadModel resolve face references with the corrected `ObjSyntax.Resolve`, not with `makeAbsolute` as written (see Findings). So on a file with three `v` lines, `vt 0 0`, `vn 0 0 1` and `f 1 2 3`, the program gives each vertex the last declared texture coordinate and normal, while the model keeps the zero defaults under a key holding -1. The vertex attributes differ, and so does de-duplication against a later `f 1/1/1 2/1/1 3/1/1`.
- The headers and sources disagree on some members, and the model follows the sources:
  - `Mesh.h` declares neither the material, `getLocalTransform`, `hasMaterial` nor `isTransparent` that the sources use.
  - `Model.h` declares neither the parent table nor `setParent`, `setParentByName`, `indexOf`, `accumulateLocalUpToRoot` and `getWorldMatrixForMesh`, which `Model.cpp` defines.
  - `findMeshByName` is called but defined nowhere. `Models.Model.FindMeshByName` takes it to return the first mesh with that name, or null.
- `std::unordered_map` iteration order is not modelled. The totals do not depend on it (`Render.TallyOrderFree`).
- `Input::wasKeyPressed` is declared but has no definition, so it is not modelled.
- `mPrevWireframeKey` is declared but never read; it is kept as a field.
- The no-op `mouseCallback` and `keyCallback`, and the static instance registration in `init`, are not modelled.
- `Renderer::printStats` and `LoadStats::print` only print, so they are not modelled.

## Findings

| source | as written | input that shows it | evidently intended | confidence | as-written member | corrected member |
|---|---|---|---|---|---|---|
| src/render/ModelLoader.cpp:326-349 | `makeAbsolute` treats the -1 that `parseFaceIndex` stores for an omitted component as a relative index, so it resolves to the last texture coordinate or normal declared | face reference `1` after three positions and at least one `vt` and `vn`: the texture coordinate and normal resolve to the last ones declared instead of staying absent | an omitted component stays absent and the vertex keeps the zero default | not executed | ObjSyntax.OmittedComponentTakesLast | ObjSyntax.Resolve |

The model uses the corrected resolution throughout:

- `ObjSyntax.ResolveAgreesWhenComplete` shows it agrees with `makeAbsolute` on every reference that gives all three components.
- `ObjParse.OmittedAttributesStayDefault` shows that omitted attributes keep the zero default.
