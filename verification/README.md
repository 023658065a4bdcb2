# A verified model of the fujiyama renderer's core

This project models, in Dafny, six pieces of the fujiyama ray tracer and proves
properties about them:

- **The bounding-volume hierarchy accelerator** (`bvh.dfy`, with boxes in `box.dfy`).
  - The build recursively sorts a range of primitives by centroid along an axis that cycles x, y, z.
  - It splits that range at the median centroid and unions the child boxes.
  - The query walks the tree with a fixed 64-entry node stack and keeps the nearest accepted hit.
- **The shading pipeline** (`shading.dfy`).
  - Covers the trace contexts and bounce limits.
  - Covers surface tracing, volume ray marching and compositing, and `SlTrace`.
  - Covers `SlIlluminance` with its shadow ray, and light-sample gathering.
- **The scene-command line parser** (`parser.dfy`).
  - Covers the tokenizer writing into its fixed 1024-byte buffer and the symbol and light-type tables.
  - Covers the error table, the name map, argument building and `parse_line`.
- **The adaptive grid sampler** (`sampler.dfy`).
  - Covers the sample counts and the sample grid, and the stack of rectangles.
  - Covers the corner-by-corner sample walk.
  - Covers subdivision into quadrants or bilinear interpolation, and copying a pixel's samples.
- **The voxel volume** (`volume.dfy`): the dense voxel buffer laid out x-fastest, and the volume object around it.
- **The constant-volume procedure** (`constantvolume.dfy`): its density and volume properties, and a run that fills every voxel with the density.

Each operation takes the form it has in the source:

- Objects whose methods update fields become classes: `VoxelBuffer`, `Volume`, `Parser`, `AdaptiveGridSampler`, `ConstantVolumeProcedure`, `BvhNodeStack`.
- Loops become methods with invariants, proved against specification functions: `Scan`, `Tokens`/`Fit`, `DataSwept`, `March`, `AllSamples`.
- Pure decisions become functions.

Floating-point values are modelled as `real`. Capabilities the core calls but does not define are parameters:

- primitive and box intersection;
- shaders and accelerators;
- `strtod`, the command table and command execution;
- the volume lookup.

The exceptions are `Geometry.BoxAddBox` and `Geometry.ContainsPoint`, which are defined concretely (see "## Left out").

## Model

| member | source | states |
|---|---|---|
| Geometry.BoxAddBox | src/BVHAccelerator.c:335-336 | the union encloses both boxes and is the smallest box that does |
| Geometry.EnclosesTransitive | src/BVHAccelerator.c:335-336 | enclosure of bounding boxes composes up the tree |
| Bvh.NewBvhNode | src/BVHAccelerator.c:341-354 | a fresh node, with no children and primitive id -1, is not a leaf |
| Bvh.NextAxis | src/BVHAccelerator.c:306-322 | the split axis cycles x, y, z |
| Bvh.InsertPermutes | src/BVHAccelerator.c:324 | insertion adds exactly one element to the multiset |
| Bvh.InsertSorted | src/BVHAccelerator.c:324 | insertion keeps a sequence sorted by centroid on the axis |
| Bvh.SortByAxisCorrect | src/BVHAccelerator.c:324 | the centroid sort yields a sorted permutation of its input |
| Bvh.SortRange | src/BVHAccelerator.c:324 | sorting a range leaves it equal to the sorted permutation and leaves the rest of the array unchanged |
| Bvh.FindMedian | src/BVHAccelerator.c:384-407 | the split index lies strictly inside the range and the element just before it is at or below the midpoint of the end centroids |
| Bvh.SortedSplitSeparates | src/BVHAccelerator.c:324-325 | after sorting, every centroid left of the split is at or below every centroid right of it |
| Bvh.SortAndSplit | src/BVHAccelerator.c:306-325 | sorting then splitting gives two non-empty halves that partition the range, ordered along the axis, with the rest of the array unchanged |
| Bvh.AssembleInner | src/BVHAccelerator.c:327-336 | joining two well-formed subtrees gives a well-formed inner node holding both primitive sets, split along the axis |
| Bvh.BuildBvh | src/BVHAccelerator.c:289-339 | the tree holds each primitive of the range exactly once, every node's box encloses its children and every split is ordered along its axis; a one-element range gives a leaf; the array is only permuted in the range |
| Bvh.Primitives | src/BVHAccelerator.c:116-156 | primitive i carries box i and index i |
| Bvh.BuildBvhAccel | src/BVHAccelerator.c:116-156 | the root tree holds each of the primitives exactly once and is well formed |
| Bvh.LeafEnclosed | src/BVHAccelerator.c:300-304 | every primitive's box is enclosed by the box of each node above it |
| Bvh.LeafCount | src/BVHAccelerator.c:366-382 | every node holds at least one primitive, and a node is a leaf exactly when it holds one primitive and has no children |
| Bvh.BvhNodeStack.constructor | src/BVHAccelerator.c:223 | a new stack is empty |
| Bvh.BvhNodeStack.PushNode | src/BVHAccelerator.c:445-449 | pushing appends the node to the stack contents |
| Bvh.BvhNodeStack.PopNode | src/BVHAccelerator.c:451-455 | popping returns the last pushed node and removes it |
| Bvh.PrimRayIntersect | src/BVHAccelerator.c:462-478 | reports a hit exactly when the primitive is hit within the ray's range, returning that intersection; a miss leaves the scratch distance at FLT_MAX |
| Bvh.ScanAppend | src/BVHAccelerator.c:229-241 | keeping the nearest hit over two candidate lists equals doing it over their concatenation |
| Bvh.InnerRemaining | src/BVHAccelerator.c:243-278 | at an inner node the work still owed is: the stack only when no child box is hit, the one hit child, or the left child with the right one pushed |
| Bvh.PushRight | src/BVHAccelerator.c:270-273 | when both children's boxes are hit, pushing the right child keeps every stacked subtree's own pending pushes within the 64-entry stack, and the left child continues within it |
| Bvh.PopTop | src/BVHAccelerator.c:256-260 | popping the top of the stack continues with exactly the work it stood for, and that subtree's pending pushes still fit |
| Bvh.LeafOwes | src/BVHAccelerator.c:230-240 | a leaf contributes its own primitive test ahead of the stacked work |
| Bvh.VisitLeaf | src/BVHAccelerator.c:230-235 | testing a leaf primitive keeps the nearer of the stored and new hit |
| Bvh.VisitInner | src/BVHAccelerator.c:243-278 | one inner step ends the walk only when no work is left, otherwise continues with the same remaining work, a smaller measure and a stack that fits |
| Bvh.IntersectBvhLoop | src/BVHAccelerator.c:210-287 | for a ray whose walk never needs more than 64 pending right children (push_node's assertion, lines 445-448), the iterative walk reports the same hit and nearest intersection as testing the candidate primitives in traversal order, and returns the input record on a miss |
| Bvh.StackNeedBelowHeight | src/BVHAccelerator.c:445-448 | the pending right children of any ray's walk are fewer than the tree's height, so a tree at most 64 levels high never trips push_node's assertion |
| Bvh.ScanFirstNearest | src/BVHAccelerator.c:231-235 | the kept intersection is unchanged or is the first accepted candidate that is strictly nearest |
| Bvh.ScanNearest | src/BVHAccelerator.c:231-235 | the kept distance is at most the distance of every accepted candidate |
| Bvh.ScanHit | src/BVHAccelerator.c:231-235 | a hit is reported exactly when some accepted candidate is nearer than the starting distance |
| Bvh.SameAcceptedScan | src/BVHAccelerator.c:231-235 | two candidate lists with the same accepted primitives give the same hit flag and distance |
| Bvh.CandidatesInRange | src/BVHAccelerator.c:229-241 | every candidate is a valid primitive index |
| Bvh.CandidatesComplete | src/BVHAccelerator.c:243-278 | with a box test that never rejects a box holding a hit, every hit primitive is visited |
| Bvh.AllIndices | src/BVHAccelerator.c:158-168 | the reference scan visits primitive 0 up to count - 1 |
| Bvh.CountDistinct | src/BVHAccelerator.c:116-156 | a primitive occurs once among distinct primitives |
| Bvh.EachIndexOnce | src/BVHAccelerator.c:116-156 | the built tree holds each indexed primitive exactly once and holds nothing else |
| Bvh.TraversalIsLinearScan | src/BVHAccelerator.c:158-168 | the hierarchy query agrees with a linear scan of all primitives: the same hit flag and the nearest distance over every accepted primitive |
| Shading.SlCameraContext | src/fj_shading.cc:204-228 | a camera context casts shadows, has the given target and positive step sizes, and is below the bounce limit |
| Shading.SlDiffuseContext | src/fj_shading.cc:230-240 | raises only the diffuse depth, marks the ray diffuse and targets the object's reflection group |
| Shading.SlReflectContext | src/fj_shading.cc:242-252 | raises only the reflection depth, marks the ray reflective and targets the object's reflection group |
| Shading.SlRefractContext | src/fj_shading.cc:254-264 | raises only the refraction depth, marks the ray refractive and targets the object's refraction group |
| Shading.SlShadowContext | src/fj_shading.cc:266-279 | a shadow context zeroes every maximum depth, targets the shadow group and changes nothing else |
| Shading.SlSelfHitContext | src/fj_shading.cc:281-289 | only the target changes, so the bounce limit is the same |
| Shading.BounceLimit | src/fj_shading.cc:467-499 | camera and shadow rays never reach the limit; a secondary ray reaches it exactly when its depth exceeds its maximum |
| Shading.ChainDepths | src/fj_shading.cc:230-264 | a chain of bounces raises each depth by the count of that bounce kind and leaves the rest unchanged |
| Shading.CameraChainTerminal | src/fj_shading.cc:204-264 | from a camera ray, a chain of bounces stops once the count of its last bounce kind exceeds 5 |
| Shading.ShadowStopsSecondary | src/fj_shading.cc:266-279 | any bounce spawned from a shadow context is already over the limit |
| Shading.Clamp | src/fj_shading.cc:562 | the result lies in the range: the input itself when it already does, the lower bound below it and the upper bound above it |
| Shading.TraceSurface | src/fj_shading.cc:527-572 | reports a hit exactly when the surface accelerator does; a miss is black with the distance untouched; a hit carries the shader colour, or NO_SHADER_COLOR with opacity 1; the opacity is the shader's when it lies in [0, 1], exactly 0 below and exactly 1 above |
| Shading.MarchStartOnGrid | src/fj_shading.cc:623-629 | the first march point is positive, lies on the step grid, and is strictly after the start of the intervals but no more than one step past it |
| Shading.MergeOpacityBound | src/fj_shading.cc:644-672 | the merged opacity is non-negative and at least the step opacity of every interval |
| Shading.MergeOpacityAttained | src/fj_shading.cc:644-672 | the merged opacity is 0 or the step opacity of some interval |
| Shading.MergeShadowBlack | src/fj_shading.cc:651-671 | shadow rays carry no colour |
| Shading.SampleIntervals | src/fj_shading.cc:644-672 | the interval loop computes the merged sample |
| Shading.BlendAlpha | src/fj_shading.cc:678 | compositing never lowers alpha and keeps it at most 1 |
| Shading.CompositeAlpha | src/fj_shading.cc:675-678 | one compositing step keeps alpha within the bounds it had and 1 |
| Shading.StepsDecrease | src/fj_shading.cc:638-685 | each step brings the march closer to its limit |
| Shading.MarchProperties | src/fj_shading.cc:638-685 | the marched alpha does not decrease and stays at most 1; shadow rays stay black |
| Shading.RaymarchProperties | src/fj_shading.cc:574-693 | reports a hit exactly when some volume interval is hit; a miss is black; alpha lies in [0, 1] and is 1 or below the opacity threshold; shadow rays are black |
| Shading.RaymarchVolume | src/fj_shading.cc:574-693 | the march loop computes the ray-marched colour |
| Shading.TraceProperties | src/fj_shading.cc:140-179 | over the bounce limit the trace is a black miss; alpha stays in [0, 1]; an opaque shadow hit returns the surface alone, whatever the volumes; otherwise the trace hits when the surface or a volume before it does, and never lowers the surface alpha |
| Shading.SlTrace | src/fj_shading.cc:140-179 | the method returns the trace of the context, scene and ray |
| Shading.SlIlluminance | src/fj_shading.cc:296-359 | returns 1 exactly for a sample inside the cone that is not dark and is seen from a non-shadow context; the light is then attenuated by the shadow trace's alpha when shadows are cast; otherwise black |
| Shading.ShadowAttenuates | src/fj_shading.cc:338-357 | shadowed light stays between zero and the unshadowed light, channel by channel |
| Shading.Dim | src/fj_shading.cc:350-353 | scaling a light by a factor in [0, 1] neither makes it negative nor brightens it |
| Shading.AllSamples | src/fj_shading.cc:380-404 | the concatenated samples number the total sample count |
| Shading.TotalGrows | src/fj_shading.cc:373-375 | the running sample count never exceeds the total |
| Shading.SlGetLightSampleCount | src/fj_shading.cc:362-378 | 0 without a light list, else the sum of the lights' sample counts |
| Shading.GetSamples | src/fj_shading.cc:397-401 | a light's samples are written right after those already gathered; the entries before and after them stay unchanged |
| Shading.SlNewLightSamples | src/fj_shading.cc:380-404 | null exactly when there are no samples; otherwise a new array with every light's samples in light order |
| SceneParser.SkipSpace | tools/scene_parser/parser.cc:131-133 | stops at the end of the line or at the first non-space character |
| SceneParser.TokenEnd | tools/scene_parser/parser.cc:137-139 | stops at the end of the line or at the first space character |
| SceneParser.SkipSpaceSpan | tools/scene_parser/parser.cc:131-133 | everything skipped is a space |
| SceneParser.TokenEndSpan | tools/scene_parser/parser.cc:137-139 | everything copied into a token is a non-space character |
| SceneParser.TokensShape | tools/scene_parser/parser.cc:119-147 | at most max_args tokens, each non-empty and free of spaces |
| SceneParser.SqueezeAppend | tools/scene_parser/parser.cc:119-147 | removing spaces distributes over concatenation |
| SceneParser.TokensAreWords | tools/scene_parser/parser.cc:119-147 | on a line without NUL or newline, the tokens from any index with room for m are exactly the first m words (maximal non-whitespace runs) of the rest of the line |
| SceneParser.TokensExtend | tools/scene_parser/parser.cc:119-147 | the tokenizer stops at a NUL, at a trailing newline, and at a newline directly after a token: the tokens of a line followed by any of these are those of the line alone, whatever comes after |
| SceneParser.TokensStopWords | tools/scene_parser/parser.cc:119-147 | the tokens of a line without NUL or newline, followed by a NUL, a trailing newline or a newline directly after a token, are the first m words of that line from the index on |
| SceneParser.WordsSqueeze | tools/scene_parser/parser.cc:119-147 | the words joined together are the text with its whitespace removed |
| SceneParser.TokensSqueeze | tools/scene_parser/parser.cc:119-147 | with room for every word, the tokens joined together are the line with its whitespace removed |
| SceneParser.LayoutAppend | tools/scene_parser/parser.cc:138-141 | each token is written NUL-terminated right after the previous one |
| SceneParser.FitWithin | tools/scene_parser/parser.cc:119-147 | the tokens kept are a prefix that fits the buffer, and all of them when everything fits |
| SceneParser.TokenBufferOverrun | tools/scene_parser/parser.cc:119-147 | a line holding one 1024-character word tokenizes to that word, which needs 1025 bytes of the 1024-byte buffer |
| SceneParser.SkipSpaces | tools/scene_parser/parser.cc:131-133 | the loop stops where SkipSpace does |
| SceneParser.ScanToken | tools/scene_parser/parser.cc:137-139 | the loop stops where TokenEnd does |
| SceneParser.CopyToken | tools/scene_parser/parser.cc:137-141 | the buffer gains the token and a NUL, and what was written before is kept |
| SceneParser.NextToken | tools/scene_parser/parser.cc:128-143 | one round either finds no token that fits or writes the next token and continues after it |
| SceneParser.TokenizeStep | tools/scene_parser/parser.cc:128-144 | one round extends the tokens and buffer layout consistently with the token specification |
| SceneParser.TokenizeLine | tools/scene_parser/parser.cc:119-147 | the tokens are the longest prefix of the line's tokens that fits the buffer, laid out NUL-terminated from its start |
| SceneParser.SymbolToNumber | tools/scene_parser/parser.cc:311-335 | a recognised symbol is one whose spelling is the string |
| SceneParser.SymbolNameRecognised | tools/scene_parser/parser.cc:311-335 | every symbol's spelling is recognised as that symbol |
| SceneParser.SymbolsAreSpellings | tools/scene_parser/parser.cc:311-335 | a string is recognised exactly when it spells some symbol |
| SceneParser.ScanNumber | tools/scene_parser/parser.cc:293-309 | succeeds exactly for a symbol or a string strtod consumes entirely; a symbol takes precedence |
| SceneParser.LightTypeOf | tools/scene_parser/parser.cc:200-213 | a recognised light type is one whose name is the string |
| SceneParser.LightTypeRoundTrip | tools/scene_parser/parser.cc:200-213 | every light type's name is recognised as that type |
| SceneParser.MessageFromIndex | tools/scene_parser/parser.cc:369-378 | the table search finds a message exactly when an entry before the terminator has the number, and returns the first such entry's message |
| SceneParser.ErrorsLayout | tools/scene_parser/parser.cc:346-368 | the table holds the eight parser errors, the nine scene-interface errors and the terminator |
| SceneParser.ErrorTable | tools/scene_parser/parser.cc:344-379 | a number has a message exactly when it is a parser or scene-interface error, and then it is that error's message |
| SceneParser.TableLookup | tools/scene_parser/parser.cc:369-378 | a table of that layout answers every lookup with the error's own message |
| SceneParser.LookupName | tools/scene_parser/parser.cc:82-90 | a registered name gives its id, and any other name gives SI_BADID |
| SceneParser.Register | tools/scene_parser/parser.cc:71-80 | the name is added, and every existing name keeps its id |
| SceneParser.RegisterThenLookup | tools/scene_parser/parser.cc:71-90 | after registering, lookup returns the new id for a name that was new and the old answer for every other name |
| SceneParser.Parser.constructor | tools/scene_parser/parser.cc:59-64 | a new parser is at line 0 with no names and error PSR_ERR_NONE with an empty message |
| SceneParser.Parser.RegisterName | tools/scene_parser/parser.cc:71-80 | reports whether the name was new; the map is extended only by a new name, and nothing else changes |
| SceneParser.ParseError | tools/scene_parser/parser.cc:344-379 | records the error number and, when the table has it, its message; otherwise the previous message |
| SceneParser.BuildFrom | tools/scene_parser/parser.cc:164-234 | a successful build keeps the argument count |
| SceneParser.BuildArgumentsMeaning | tools/scene_parser/parser.cc:164-234 | the build succeeds exactly when every typed argument converts, fills each one with its conversion and leaves the rest; a failure carries the error of the first argument that does not convert |
| SceneParser.BuiltArgumentsResolved | tools/scene_parser/parser.cc:174-189 | after a build, every entry-id argument holds the registered id of its name and every new-entry name is unregistered |
| SceneParser.BuildArguments | tools/scene_parser/parser.cc:164-234 | returns 0 with the converted arguments, or -1 with the first failing argument's error recorded |
| SceneParser.LineTokens | tools/scene_parser/parser.cc:258 | parse_line tokenizes at most 16 tokens into 1024 bytes, a prefix of the line's tokens |
| SceneParser.Initial | tools/scene_parser/parser.cc:238 | the argument array has 16 entries |
| SceneParser.ParseSpec | tools/scene_parser/parser.cc:236-291 | returns 0 or -1; 0 exactly when no error is recorded; a failure leaves the names alone; names are only ever added |
| SceneParser.ParseSuccess | tools/scene_parser/parser.cc:236-291 | a line that is not blank or a comment succeeds exactly when its command exists, the token count matches, every argument converts and the command runs successfully |
| SceneParser.ParseFailure | tools/scene_parser/parser.cc:259-271 | an unknown command, too few tokens or too many tokens give their own error numbers |
| SceneParser.HeadExtend | tools/scene_parser/parser.cc:247-258 | parse_line's leading skip followed by tokenizing finds the same tokens whether or not the line is followed by something that stops the tokenizer |
| SceneParser.LineTokensAreWords | tools/scene_parser/parser.cc:247-258 | for a line without NUL or newline, optionally followed by its trailing newline, a NUL, or a newline directly after a token with anything after it: the tokens are its first 16 words cut back to those that fit the 1024-byte token list, and all of the first 16 when they fit |
| SceneParser.ParseLine | tools/scene_parser/parser.cc:236-291 | the method's return code, names and error state follow the parse specification, and the line number is kept |
| SceneParser.PsrParseLine | tools/scene_parser/parser.cc:107-112 | the line number goes up by one and the line is parsed |
| GridSampler.VMin | src/fj_adaptive_grid_sampler.cc:241-249 | the channel-wise minimum |
| GridSampler.VMax | src/fj_adaptive_grid_sampler.cc:241-249 | the channel-wise maximum |
| GridSampler.LerpEnds | src/fj_adaptive_grid_sampler.cc:307-316 | interpolation returns its ends at 0 and 1 |
| GridSampler.OffsetInRange | src/fj_adaptive_grid_sampler.cc:141-142 | a grid point's row-major offset lies within the sample array |
| GridSampler.PixelDivision | src/fj_adaptive_grid_sampler.cc:220-224 | each pixel splits into 2 to the maximum subdivision on both axes, halving with each level less |
| GridSampler.SampleCounts | src/fj_adaptive_grid_sampler.cc:210-218 | a one-pixel region has a pixel's sample count, and a region has its size plus margins times the division, plus one, samples per axis |
| GridSampler.RegionSamplesPositive | src/fj_adaptive_grid_sampler.cc:215-218 | a region has at least one sample per axis |
| GridSampler.PixelBlockFits | src/fj_adaptive_grid_sampler.cc:168-195 | a pixel's block of samples lies within the region's samples |
| GridSampler.RegionPixelsFit | src/fj_adaptive_grid_sampler.cc:168-195 | a pixel has at least one sample per axis, and every pixel of a region has its whole block in the region's grid |
| GridSampler.QuadrantsHalve | src/fj_adaptive_grid_sampler.cc:220-230 | a 2^k square cell splits into four 2^(k-1) squares and only side 1 stops subdivision, so a pixel cell of side 2^maxSubdivision is split at most maxSubdivision levels deep |
| GridSampler.CornersInGrid | src/fj_adaptive_grid_sampler.cc:105-116 | corners are numbered top-left, top-right, bottom-left, bottom-right and lie in the grid |
| GridSampler.Div2Twice | src/fj_adaptive_grid_sampler.cc:271-275 | halving a doubled coordinate gives it back |
| GridSampler.Quadrants | src/fj_adaptive_grid_sampler.cc:262-297 | a subdivision pushes four rectangles |
| GridSampler.QuadrantsSplit | src/fj_adaptive_grid_sampler.cc:262-297 | the four quadrants are in the grid, smaller than the rectangle, and together cover exactly its points |
| GridSampler.TreeMono | src/fj_adaptive_grid_sampler.cc:262-297 | the subdivision bound grows with the rectangle's size |
| GridSampler.PotentialPush | src/fj_adaptive_grid_sampler.cc:277-296 | pushing adds the rectangle's weight to the stack's |
| GridSampler.QuadrantsWeigh | src/fj_adaptive_grid_sampler.cc:262-297 | the four quadrants weigh less than the rectangle they replace |
| GridSampler.PotentialQuadrants | src/fj_adaptive_grid_sampler.cc:277-296 | pushing the quadrants adds their weights |
| GridSampler.MinMaxOf | src/fj_adaptive_grid_sampler.cc:236-249 | the running minimum and maximum bound every corner's channel and are attained by some corner |
| GridSampler.SpreadDiffers | src/fj_adaptive_grid_sampler.cc:251-257 | some channel's spread exceeds the threshold exactly when two corners differ by more than it in that channel |
| GridSampler.InterpolatedFlags | src/fj_adaptive_grid_sampler.cc:318-320 | an unvisited flag inside the swept part of the rectangle becomes 0; every other flag is kept |
| GridSampler.SweepStep | src/fj_adaptive_grid_sampler.cc:310-321 | one more sample of the sweep is interpolated and its flag settled |
| GridSampler.SweepSame | src/fj_adaptive_grid_sampler.cc:306-322 | the sweep depends only on which samples of the rectangle it has passed |
| GridSampler.InterpolateRow | src/fj_adaptive_grid_sampler.cc:310-321 | the inner loop sweeps one row of the rectangle |
| GridSampler.Interpolate | src/fj_adaptive_grid_sampler.cc:299-325 | every sample of the rectangle is interpolated from the four corners, unvisited flags inside it become 0, and everything outside is kept |
| GridSampler.RatioEnds | src/fj_adaptive_grid_sampler.cc:307-316 | the interpolation parameter is 0 at the minimum and 1 at the maximum |
| GridSampler.InterpCorners | src/fj_adaptive_grid_sampler.cc:299-325 | interpolation reproduces the four corner values at the corners |
| GridSampler.TileRow | src/fj_adaptive_grid_sampler.cc:95-100 | one row of tiles has one tile per column |
| GridSampler.TileInGrid | src/fj_adaptive_grid_sampler.cc:93-101 | each tile lies in the sample grid and spans one pixel division |
| GridSampler.TileRowsInGrid | src/fj_adaptive_grid_sampler.cc:92-101 | the tile stack holds one pixel-sized tile per pixel and margin pixel, all in the grid |
| GridSampler.CornerData | src/fj_adaptive_grid_sampler.cc:302-305 | the four corner samples of a rectangle |
| GridSampler.Resized | src/fj_adaptive_grid_sampler.cc:41 | resizing keeps the leading samples |
| GridSampler.StalePixelSamples | src/fj_adaptive_grid_sampler.cc:28-33 | with the division still at its initial 2 and a maximum subdivision of 2, the samples per pixel come out 3 by 3 where the new division of 4 needs 5 by 5 |
| GridSampler.ClearSamples | src/fj_adaptive_grid_sampler.cc:65-90 | every sample's data is cleared |
| GridSampler.StackTiles | src/fj_adaptive_grid_sampler.cc:92-101 | the loops push the tiles row by row |
| GridSampler.CopyRow | src/fj_adaptive_grid_sampler.cc:188-192 | one row of the pixel's block is copied, and everything after it is kept |
| GridSampler.CopyBlock | src/fj_adaptive_grid_sampler.cc:187-193 | the pixel's block is copied row by row, and everything after it is kept |
| GridSampler.AdaptiveGridSampler.constructor | src/fj_adaptive_grid_sampler.cc:11-22 | the initial counts and an empty sample grid and stack |
| GridSampler.AdaptiveGridSampler.UpdateSampleCounts | src/fj_adaptive_grid_sampler.cc:28-33 | the margin and division are refreshed and the pixel sample count follows the new division |
| GridSampler.LayOutGrid | src/fj_adaptive_grid_sampler.cc:39-101 | the region's grid has at least one sample per axis, its samples are all cleared, and every level-zero tile rectangle stacked row by row lies in the grid |
| GridSampler.AdaptiveGridSampler.GenerateSamples | src/fj_adaptive_grid_sampler.cc:35-103 | the grid covers the region with margins, all samples are cleared and unvisited, and one tile per pixel is stacked; every pixel of the region has its block in the grid |
| GridSampler.AdaptiveGridSampler.CompareCorners | src/fj_adaptive_grid_sampler.cc:226-260 | true exactly when the rectangle can still be halved and its corners differ by more than the threshold in some channel |
| GridSampler.AdaptiveGridSampler.SubdivideRect | src/fj_adaptive_grid_sampler.cc:262-297 | the four quadrants are pushed and nothing else changes |
| GridSampler.AdaptiveGridSampler.InterpolateRect | src/fj_adaptive_grid_sampler.cc:299-325 | the rectangle is interpolated from its corners and nothing else changes |
| GridSampler.AdaptiveGridSampler.SubdivideOrInterpolate | src/fj_adaptive_grid_sampler.cc:327-338 | a rectangle that needs subdividing is split, and any other is interpolated |
| GridSampler.AdaptiveGridSampler.FinishTop | src/fj_adaptive_grid_sampler.cc:129-134 | a finished rectangle is popped; if its corners differ it is replaced by its four quadrants and nothing else changes, otherwise its interior samples and flags are filled by interpolation from its corners; the stack's weight falls |
| GridSampler.AdaptiveGridSampler.VisitCorner | src/fj_adaptive_grid_sampler.cc:137-154 | the next corner is examined; an unvisited one is returned and marked, 0 at the pixel division level and 1 below it |
| GridSampler.AdaptiveGridSampler.GetNextSample | src/fj_adaptive_grid_sampler.cc:118-166 | returns an unvisited sample and marks it, or nothing once the stack is empty; visited flags are never reset |
| GridSampler.AdaptiveGridSampler.GetSamplesetInPixel | src/fj_adaptive_grid_sampler.cc:168-195 | the pixel's block of samples fills the front of the output, grown when too small, and the rest is kept |
| Volumes.IndexInRange | src/Volume.c:193-222 | a voxel inside the grid has an index inside the buffer |
| Volumes.IndexLayout | src/Volume.c:193-222 | the index is x-fastest, then y, then z |
| Volumes.IndexDecodes | src/Volume.c:193-222 | the index decodes back to its voxel |
| Volumes.IndexCovers | src/Volume.c:166-181 | every buffer slot belongs to exactly one voxel of the grid |
| Volumes.IndexInjective | src/Volume.c:193-222 | distinct voxels have distinct slots |
| Volumes.VoxelBuffer.constructor | src/Volume.c:138-152 | a new buffer has resolution 0 and no data |
| Volumes.VoxelBuffer.Slot | src/Volume.c:193-222 | a voxel in the grid maps to its slot in the data |
| Volumes.VoxelBuffer.Resize | src/Volume.c:166-181 | the buffer gets the new resolution and fresh data of that size |
| Volumes.VoxelBuffer.Fill | src/Volume.c:183-191 | every voxel holds the value |
| Volumes.VoxelBuffer.SetValue | src/Volume.c:193-206 | a voxel inside the grid is set, one outside is ignored, and every other voxel is kept |
| Volumes.Volume.constructor | src/Volume.c:36-51 | a new volume has no buffer and zero bounds and size |
| Volumes.Volume.VolResize | src/Volume.c:62-77 | a positive resolution gives a new buffer of that resolution filled with 0; any other resolution changes nothing |
| Volumes.Volume.VolSetBounds | src/Volume.c:79-85 | stores the bounds and their extent as the size |
| Volumes.Volume.Resolution | src/Volume.c:92-97 | the resolution is the buffer's, never negative |
| Volumes.Volume.GetValue | src/Volume.c:208-222 | the stored voxel, or 0 without a buffer or outside the grid |
| Volumes.Volume.VolSetValue | src/Volume.c:99-105 | the voxel reads back the value, every other voxel is unchanged, and nothing is stored without a buffer |
| Volumes.Volume.VolGetValue | src/Volume.c:107-110 | as written, always 0 |
| Volumes.Volume.VolGetSample | src/Volume.c:112-136 | a point inside the bounds of a volume with a buffer is a hit with the looked-up density; anything else is a miss with no density |
| Volumes.SetThenGetAsWritten | src/Volume.c:99-110 | a stored voxel reads back as 0 through VolGetValue |
| Volumes.SetThenGet | src/Volume.c:99-110 | a stored voxel reads back as the value it was set to, and every other voxel is unchanged |
| ConstantVolume.FillRow | procedures/constantvolume_procedure/constantvolume_procedure.cc:119-121 | one row of a slice is filled with the density |
| ConstantVolume.FillSlice | procedures/constantvolume_procedure/constantvolume_procedure.cc:118-122 | one slice is filled with the density |
| ConstantVolume.FillWithConstant | procedures/constantvolume_procedure/constantvolume_procedure.cc:112-126 | every voxel of the volume holds the density, and 0 is returned |
| ConstantVolume.ConstantVolumeProcedure.constructor | procedures/constantvolume_procedure/constantvolume_procedure.cc:13 | no volume and density 1 |
| ConstantVolume.ConstantVolumeProcedure.SetVolume | procedures/constantvolume_procedure/constantvolume_procedure.cc:91-101 | a null volume is refused with -1; anything else is stored |
| ConstantVolume.ConstantVolumeProcedure.SetDensity | procedures/constantvolume_procedure/constantvolume_procedure.cc:103-110 | the density is the value, or 0 for a negative value, so it is never negative |
| ConstantVolume.ConstantVolumeProcedure.Run | procedures/constantvolume_procedure/constantvolume_procedure.cc:75-84 | -1 without a volume; otherwise every voxel holds the density |

## Left out

- intersect_bvh_recursive in src/BVHAccelerator.c is not modelled. It is a recursive alternative to the loop that no caller uses.
- Memory allocation failures are not modelled: `malloc`, `realloc` and `new` returning null, `VolResize` failing, `new_voxel_buffer` failing. Allocation always succeeds in the model.
- Deallocation is not modelled: `free_bvhnode_recursive`, `VolFree`, `free_voxel_buffer`, `PsrFree`, `SlFreeLightSamples`. The model has no explicit memory.
- Trivial getters are not modelled: `VolGetBounds`, `PsrGetErrorMessage`, `PsrGetLineNo`, `get_sample_count`.
- Floating point is modelled as exact `real` arithmetic. Rounding, `float` versus `double`, NaN and infinity are not modelled. `FLT_MAX` is a large constant.
- Bvh.BuildBvhAccel: requires at least one primitive. With none, the source hands an empty range to a build that assumes a non-empty one.
- Bvh.IntersectBvhLoop: the ray-box and ray-primitive tests are parameters. `boxHit` and `found` stand for the box slab test and the primitive's own intersection routine.
- Bvh.IntersectBvhLoop: requires that this ray's walk never has more than 64 right children pending (`StackNeed(root, boxHit) < BVH_STACKSIZE`), which is what push_node asserts. The build does not guarantee it: primitives whose centroids are spread very unevenly give a tree as high as their number. Past that point the source stops at the assertion, or with assertions disabled writes past the stack; neither is modelled. Every tree at most 64 levels high meets the requirement for every ray (`StackNeedBelowHeight`).
- Bvh.VisitLeaf, Bvh.VisitInner: the source has this loop body inline. It is split out here only so each step is proved on its own.
- Shading.SlIlluminance: the geometry is not modelled. The direction to the light, its normalisation, the distance and the cone test are the parameters `ln`, `distance` and `inCone`. The light's `Illuminate` result is the `light` parameter.
- Shading.RaymarchVolume: the source leaves a shadow ray's sample colour uninitialised and composites it anyway. The model uses black there. fj_color.h is not part of this model.
- Shading.TraceSurface: shaders, surface accelerators and volume accelerators are functions in the `Scene` value. Time, texture coordinates and surface-input setup are not modelled.
- Refraction, bump mapping and the other vector helpers in src/fj_shading.cc are not modelled. They are geometry, not part of the pipeline's control.
- SceneParser.ParseLine: the commands are supplied by `Env`. That covers `CmdSearchCommand`, the command's `Run`, `SiGetErrorNo` and `strtod`. `print_command` is console output only. `SiOpenScene` and `SiCloseScene` are not modelled.
- SceneParser.ErrorTable: the numeric values of the scene-interface error codes are assumed to run 0 to 9. fj_scene_interface.h is not part of this model.
- SceneParser.BuildArguments: the property-name, file-path, string and command-name arguments pass through unchanged. The group name `DEFAULT_SHADING_GROUP` becomes the empty string.
- GridSampler.AdaptiveGridSampler.GenerateSamples: sample uv coordinates, time, jitter and the random-number generators are not modelled. Only the sample data and visit flags are.
- GridSampler.AdaptiveGridSampler.UpdateSampleCounts: the margin is taken as the filter margin already rounded up. The `Ceil` of the filter width is not modelled.
- GridSampler.AdaptiveGridSampler.GetNextSample: returns the index of the sample rather than a pointer into the sample array.
- GridSampler.Size: a rectangle's size is taken as max − min. fj_rectangle.h is not part of this model.
- Integer overflow of `int` arithmetic is not modelled, in the sampler's counts or in the voxel index.
- Volumes.VoxelBuffer.Resize: the old contents are dropped and the new data starts at 0, as `VolResize` then fills. What `realloc` keeps is not modelled.
- Volumes.Volume.VolGetSample: the trilinear or nearest lookup and the world-to-voxel mapping are the `lookup` parameter.
- ConstantVolume.FillWithConstant, ConstantVolume.ConstantVolumeProcedure.Run: require a volume with a buffer (Run: whenever a volume is set), because the source's resolution query reads the buffer without checking it.
- ConstantVolume.ConstantVolumeProcedure.Run: plugin registration, the property table and the generic property-value type are not modelled. A property is reduced to its value.
- Geometry.BoxAddBox, Geometry.ContainsPoint: defined concretely, as a componentwise min/max union and a closed-box test, rather than taken as parameters. Box.h is not part of this model.
- Bvh.SortRange: qsort is modelled by one fixed permutation, the one insertion sort produces. The rest of the model relies only on the result being sorted by centroid and a permutation of the range, which any qsort result is. So where qsort orders equal centroids differently, the tree's shape may differ, but the proved properties still hold.
- SceneParser.BuildArguments: the `SI_ORDER_*` transform and rotate orders and the `SI_*_LIGHT` light types become the datatypes `Symbol` and `LightType` rather than their numeric values. fj_scene_interface.h is not part of this model.
- Shading.RaymarchVolume, Shading.Trace, Shading.SlTrace, Shading.SlIlluminance: require a positive ray-march step for the context they march in. With a step of 0 or less and a volume interval starting behind the ray, the source's march never ends. Every context the source creates sets the steps to .05.
- GridSampler.AdaptiveGridSampler.GenerateSamples: models the corrected program. It calls the corrected `UpdateSampleCounts` (see "## Findings"), so the samples per pixel match the current division and it ensures `Ready()`, which the code as written does not guarantee.
- GridSampler.AdaptiveGridSampler.GetSamplesetInPixel: models the corrected program. It requires `Ready()`, which holds after the corrected `GenerateSamples` and not always after the code as written.
- SceneParser.ParseLine: models the corrected program. It tokenizes with the corrected tokenizer, which keeps only the tokens that fit the 1024-byte buffer (`LineTokens` is built with `Fit`; see "## Findings").
- SceneParser.ParseSpec: describes the corrected program, through the same `LineTokens`.
- SceneParser.TokensStopWords, SceneParser.LineTokensAreWords: a newline that follows whitespace is skipped like any other space, and tokenizing goes on after it. `Tokens` and `TokenizeLine` cover such lines, but no lemma restates their tokens as words.
- Concurrency is not modelled. Each operation runs alone.

## Findings

| source | as written | input that shows it | evidently intended | confidence | as-written member | corrected member |
|---|---|---|---|---|---|---|
| tools/scene_parser/parser.cc:119-147 | tokenize_line never checks `tokenized_size`: each token and its NUL are written wherever `dst` has reached, and parse_line's buffer is 1024 bytes | a line that is one word of 1024 non-space characters: the word and its NUL need 1025 bytes | keep only the tokens that fit the buffer | not executed | SceneParser.TokenBufferOverrun | SceneParser.TokenizeLine |
| src/fj_adaptive_grid_sampler.cc:28-33 | update_sample_counts computes the samples per pixel from the division before it recomputes the division | a new sampler (division 2) with maximum subdivision 2 and no margin: 3 by 3 samples per pixel, where the division of 4 gives 5 by 5 | compute the division first, then the samples per pixel | not executed | GridSampler.StalePixelSamples | GridSampler.AdaptiveGridSampler.UpdateSampleCounts |
| src/Volume.c:107-110 | VolGetValue returns 0 without reading the buffer | set voxel (0, 0, 0) of a 1 by 1 by 1 volume to 1.0, then read it back: 0 | return the stored voxel, or 0 outside the grid | not executed | Volumes.SetThenGetAsWritten | Volumes.SetThenGet |
