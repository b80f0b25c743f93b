# Planar mechanism links, geometric helpers and URL arguments, in Dafny

This project models three parts of the planar mechanism simulator (PMKS) and proves properties about them.

- **The link's joint-pair tables** (`Links`, links.dfy). A `link` holds its joints, its reference joints and angles, and three sparse tables. The tables are keyed by the packed index `numJoints * i + j` of two joint positions:
  - `lengths`: rigid distances, stored once per unordered pair, smaller position first;
  - `distanceToSlideLine`: signed offsets from a slide line, per ordered pair;
  - `angleFromBlockToJoint`: block angles, per ordered pair.

  `DetermineLengthsAndReferences` fills them in an `i < j` double loop. `lengthBetween`, `DistanceBetweenSlides` and `angleOfBlockToJoint` read them back. `SetLength` overwrites one length and `Copy` duplicates the tables.

  The link is a `class` whose methods update its fields. The tables are `map<int, real>` fields. The loop is a pair of `while` loops proved against the specification functions `InitialLengths`, `InitialOffsets` and `InitialBlockAngles`: the tables as the finished loop leaves them.

  What joint.cs, `Math` and `StarMath` compute for a link is passed in as uninterpreted functions, in the `Surroundings` datatype:
  - whether a joint slides on the link or is fixed to it;
  - its slide angle;
  - the distance between two points;
  - `Math.Atan2`;
  - the cross product stored as a slide offset.
- **Geometric helpers** (`Constants`, constants.dfy). These are the tolerance tests `sameCloseZero`, the squared distance, the distance relation and the intersection of two lines given by slope and point. Doubles are reals. A slope or coordinate that may be NaN or infinite is a `Double` (`Finite(value)` or `NonFinite`).
- **URL arguments** (`UrlArgumentHandling`, url_encoding.dfy). This covers the string rewrites that build the `mech=` and `ts=` query arguments, and the `|` to line-break step that reads `mech` back. Strings are `seq<char>`. `String.Replace(char, char)`, `String.Replace("  ", " ")`, `Trim` and `IsNullOrWhiteSpace` are functions written out in Dafny.

Errors the source raises as exceptions are modelled explicitly:
- a missing dictionary key is `Err(KeyNotFound)`;
- `Max` of no values is `Err(EmptySequence)`;
- `fixedJoints[0]` on an empty list and `SetLength` of a joint with itself are a `false` result.

`Dictionary.Add` throws on a duplicate key. The model proves the loop never meets one: every add helper requires its key to be absent.

## Model

| member | source | states |
|---|---|---|
| Constants.SameCloseZero | PlanarMechanismSimulator/Constants.cs:48-51 | `Math.Abs(x1) < epsilonSame` holds exactly for x1 strictly between -epsilonSame and epsilonSame, where the literal `10e-12` is 1e-11 |
| Constants.SameClose | PlanarMechanismSimulator/Constants.cs:53-56 | the two-argument test is the one-argument test of the difference, which holds in either order of the arguments |
| Constants.SameCloseSymmetric | PlanarMechanismSimulator/Constants.cs:53-56 | the two-argument `sameCloseZero` is symmetric, and is the one-argument test of either difference |
| Constants.DistanceSquared | PlanarMechanismSimulator/Constants.cs:61-64 | the squared distance is never negative; the second point defaults to the origin |
| Constants.DistanceSquaredBetween | PlanarMechanismSimulator/Constants.cs:66-69 | the point overload equals the coordinate form with the points in either order |
| Constants.DistanceSquaredSamePoint | PlanarMechanismSimulator/Constants.cs:61-64 | a point is at squared distance 0 from itself |
| Constants.DistanceSquaredSymmetric | PlanarMechanismSimulator/Constants.cs:61-64 | swapping the two points leaves the squared distance unchanged |
| Constants.DistanceSquaredToOrigin | PlanarMechanismSimulator/Constants.cs:61 | with the default second point the result is x1² + y1² |
| Constants.DistanceUnique | PlanarMechanismSimulator/Constants.cs:75-78 | the non-negative root of the squared distance is unique, so `distance` is a function of its points |
| Constants.DistanceSymmetric | PlanarMechanismSimulator/Constants.cs:75-78 | the distance from p to q is the distance from q to p |
| Constants.DistanceSamePoint | PlanarMechanismSimulator/Constants.cs:75-78 | the distance from a point to itself is 0 |
| Constants.AngleDependsOnOffset | PlanarMechanismSimulator/Constants.cs:95-98 | `angle` passes `Atan2` only the offset from start to end, so moving both points by the same amount leaves it unchanged |
| Constants.VerticalSlope | PlanarMechanismSimulator/Constants.cs:118-122 | a slope counts as vertical exactly when it is NaN or infinite, or above `MaxSlope` or below `-MaxSlope` |
| Constants.SolveViaIntersectingLines | PlanarMechanismSimulator/Constants.cs:102-116 | coincident points give ptA before any slope test; equal slopes give the NaN point; a vertical slope A gives x = ptA.x on line B (a NaN or infinite y when slope B is not finite); a vertical slope B gives x = ptB.x on line A; otherwise the point lies on both lines |
| Constants.LineAt | PlanarMechanismSimulator/Constants.cs:106-111 | `slope * x + offset`, with `offset = p.y - slope * p.x`, is the point of the line through p at x |
| Constants.CrossingX | PlanarMechanismSimulator/Constants.cs:113-114 | `(offsetB - offsetA) / (slopeA - slopeB)` is the x at which both lines have the same y |
| Links.Joint.constructor | PlanarMechanismSimulator/link.cs:137-157 | stands for the joint of joint.cs, which is not part of this model: it holds the type and initial position the link reads at these lines, and the slide angle, and starts at its initial position |
| Links.DivModOfKey | PlanarMechanismSimulator/link.cs:126-131 | the key `n * i + j` divides back into i and j when j is a valid position |
| Links.CanonicalKeySymmetric | PlanarMechanismSimulator/link.cs:202-205 | the key `lengthBetween` and `SetLength` use is the same for both orders of the joints, and is the key of the smaller position first |
| Links.KeyInjective | PlanarMechanismSimulator/link.cs:126-131 | `n * i + j` determines i and j when j is a valid position |
| Links.KeysDistinct | PlanarMechanismSimulator/link.cs:126-131 | two different pairs of positions never share a key |
| Links.KeyBounds | PlanarMechanismSimulator/link.cs:173-175 | every key of two positions lies in [0, n²) |
| Links.WithCommutes | PlanarMechanismSimulator/link.cs:143-151 | entries under two different keys may be added in either order, as the third branch adds (j, i) before (i, j) |
| Links.TableAt | PlanarMechanismSimulator/link.cs:119-168 | a table holds the key of (a, b) exactly when the loop has visited the pair and the pair's entry condition holds, and then holds its value |
| Links.TableStep | PlanarMechanismSimulator/link.cs:119-168 | one step (i, j) of the loop adds the entries of (i, j) and (j, i) and nothing else |
| Links.TableStart | PlanarMechanismSimulator/link.cs:115-117 | the tables start empty |
| Links.TableRowDone | PlanarMechanismSimulator/link.cs:119-120 | finishing row i of the inner loop is starting row i + 1 |
| Links.TableDone | PlanarMechanismSimulator/link.cs:119-120 | where the outer loop stops, every pair has been visited |
| Links.InitialLengths | PlanarMechanismSimulator/link.cs:153-156 | every entry of the finished `lengths` is that of a pair, smaller position first, in which neither joint slides, and holds the distance between their initial positions |
| Links.InitialOffsets | PlanarMechanismSimulator/link.cs:124-166 | every entry of the finished `distanceToSlideLine` is that of an ordered pair of different joints whose first slides or is a P joint, and holds its offset |
| Links.InitialBlockAngles | PlanarMechanismSimulator/link.cs:124-166 | every entry of the finished `angleFromBlockToJoint` is that of such an ordered pair, and holds its block angle |
| Links.LengthsStep | PlanarMechanismSimulator/link.cs:155-156 | the `lengths.Add` key of step (i, j) is new, and a length is added exactly for a pair where neither joint slides |
| Links.SlideTableStep | PlanarMechanismSimulator/link.cs:124-167 | the two keys of step (i, j) differ and are both new in the offset and block-angle tables, so no `Add` throws |
| Links.IndexOf | PlanarMechanismSimulator/link.cs:202-203 | `List.IndexOf`: -1 exactly when the joint is absent, else its first position |
| Links.IndexOfDistinct | PlanarMechanismSimulator/link.cs:202-203 | in a list without repeats each joint is found at its own position |
| Links.FixedOrderUnique | PlanarMechanismSimulator/link.cs:95-97 | `fixedJoints[0]` and `fixedJoints[1]` of the stable sort by initial x are each unique |
| Links.FirstTwoFixed | PlanarMechanismSimulator/link.cs:95-109 | finds `fixedJoints[0]` exactly when there is a fixed joint, and `fixedJoints[1]` exactly when there are at least two |
| Links.SumAbs | PlanarMechanismSimulator/link.cs:65 | the sum of absolute values is never negative |
| Links.MaxAbs | PlanarMechanismSimulator/link.cs:51 | the maximum absolute value bounds every entry and is reached by one |
| Links.AbsBelowSum | PlanarMechanismSimulator/link.cs:61-67 | every absolute length is at most the total length |
| Links.MaxAbsWithinSum | PlanarMechanismSimulator/link.cs:47-67 | for a non-empty table, 0 ≤ MaxLength ≤ TotalLength |
| Links.NegativeReciprocalDiffers | PlanarMechanismSimulator/link.cs:262-263 | the perpendicular slope `-1 / slope1` never equals `slope1`, so the general branch divides by a non-zero difference |
| Links.FindOrthoPoint | PlanarMechanismSimulator/link.cs:255-269 | a horizontal slide gives (ref.x, slide.y); a vertical one gives (slide.x, ref.y); otherwise the point lies on the slide line and the reference lies on its perpendicular; a zero tangent outside the tolerance gives NaN |
| Links.OrthoFoot | PlanarMechanismSimulator/link.cs:262-268 | the general-branch point is on the slide line and the reference is off it along the perpendicular |
| Links.LookUp | PlanarMechanismSimulator/link.cs:204-205 | the dictionary indexer: the entry when the key is present, else KeyNotFound |
| Links.CanonicalWriteKeepsOthers | PlanarMechanismSimulator/link.cs:288-289 | a write under the canonical key of one pair leaves the entry of every other pair as it was |
| Links.LengthIn | PlanarMechanismSimulator/link.cs:199-206 | a joint with itself has length 0; a failed read is only KeyNotFound |
| Links.DistanceIn | PlanarMechanismSimulator/link.cs:217-226 | a joint with itself has offset 0; a failed read is only KeyNotFound |
| Links.AngleIn | PlanarMechanismSimulator/link.cs:233-239 | a joint with itself has block angle 0; a failed read is only KeyNotFound |
| Links.LengthInIsCanonical | PlanarMechanismSimulator/link.cs:202-205 | two different joints are read under the key of their positions, the smaller first |
| Links.LengthInKeepsOthers | PlanarMechanismSimulator/link.cs:282-290 | after writing the length of one pair, every other pair of the link's joints reads as before |
| Links.WriteKeepsPair | PlanarMechanismSimulator/link.cs:286-289 | one other pair is unaffected by the write, also where a joint is off the list and the write key is negative |
| Links.InitialLengthAt | PlanarMechanismSimulator/link.cs:153-156 | after the loop, the canonical key of two positions holds the distance between their initial positions exactly when neither joint slides |
| Links.InitialSlideTableAt | PlanarMechanismSimulator/link.cs:124-166 | after the loop, the key of (a, b) in the offset and block-angle tables is present exactly when a slides or is a P joint |
| Links.InitialLengthRead | PlanarMechanismSimulator/link.cs:199-206 | `lengthBetween` after initialisation: the initial distance for a rigid pair, KeyNotFound when a joint slides |
| Links.LengthInReadsBack | PlanarMechanismSimulator/link.cs:282-290 | after `SetLength` the length reads back in both orders |
| Links.InitialDistanceAt | PlanarMechanismSimulator/link.cs:217-226 | `DistanceBetweenSlides` after initialisation: the stored (a, b) offset, else the negated (b, a) offset, else KeyNotFound |
| Links.DistanceInAt | PlanarMechanismSimulator/link.cs:222-225 | the (slide, fixed) key first, then the negated reverse key |
| Links.InitialAngleAt | PlanarMechanismSimulator/link.cs:233-239 | `angleOfBlockToJoint` after initialisation: the stored block angle when a slides or is a P joint, else KeyNotFound |
| Links.Link.constructor | PlanarMechanismSimulator/link.cs:79-84 | name, joint list and ground flag as given, every table empty and every angle 0 |
| Links.Link.Blank | PlanarMechanismSimulator/link.cs:86-87 | the private constructor: an empty joint list, not ground |
| Links.Link.DetermineLengthsAndReferences | PlanarMechanismSimulator/link.cs:91-170 | fails exactly when no joint is fixed; otherwise sets the references and angles, shifts each sliding joint's slide angle by the initial angle, and leaves the three tables equal to their specifications, so the link is initialised |
| Links.Link.DefineInitialLinkAngle | PlanarMechanismSimulator/link.cs:94-113 | the first fixed joint in order of initial x is reference 1; a ground link or one with a single fixed joint has angle 0 and keeps reference 2; otherwise reference 2 is the second fixed joint and the angle runs from reference 1 to it; Angle, AngleNumerical and AngleLast equal AngleInitial |
| Links.Link.MakeSlideAnglesRelative | PlanarMechanismSimulator/link.cs:111-112 | every joint sliding on the link has its slide angle reduced by the initial angle; other joints are unchanged |
| Links.Link.FillJointToJointTables | PlanarMechanismSimulator/link.cs:114-169 | the three tables end equal to InitialLengths, InitialOffsets and InitialBlockAngles |
| Links.Link.AddRow | PlanarMechanismSimulator/link.cs:120-168 | one pass of the inner loop takes the tables from the start of row i to the start of row i + 1 |
| Links.Link.AddPairEntries | PlanarMechanismSimulator/link.cs:121-167 | the four branches together add exactly the specified entries of (i, j) and (j, i) |
| Links.Link.AddBothSlide | PlanarMechanismSimulator/link.cs:124-132 | both joints sliding: 0 under both keys in the offset and block-angle tables |
| Links.Link.AddSlideAndOther | PlanarMechanismSimulator/link.cs:133-152 | one joint sliding: its entries towards the other, plus the other's entries when it is a P joint |
| Links.Link.AddNeitherSlides | PlanarMechanismSimulator/link.cs:153-167 | neither joint sliding: the length of the pair, plus the entries of each P joint towards the other |
| Links.Link.AddBlockEntriesIfPrismatic | PlanarMechanismSimulator/link.cs:157-161 | a joint that does not slide adds its offset and block angle towards the other exactly when it is a P joint |
| Links.Link.AddSlideDictionaryEntry | PlanarMechanismSimulator/link.cs:173-180 | adds the slide offset under the key of (slide, fixed) and nothing else |
| Links.Link.AddBlockAngleDictionaryEntry | PlanarMechanismSimulator/link.cs:182-188 | adds the slide angle less the angle from block to reference under the key of (block, reference) |
| Links.Link.LengthBetween | PlanarMechanismSimulator/link.cs:199-206 | a joint with itself has length 0; a failed read is only KeyNotFound |
| Links.Link.DistanceBetweenSlides | PlanarMechanismSimulator/link.cs:217-226 | a joint with itself has offset 0; a failed read is only KeyNotFound |
| Links.Link.AngleOfBlockToJoint | PlanarMechanismSimulator/link.cs:233-239 | a joint with itself has block angle 0; a failed read is only KeyNotFound |
| Links.Link.LengthBetweenSymmetric | PlanarMechanismSimulator/link.cs:199-206 | `lengthBetween(a, b) == lengthBetween(b, a)` for all joints |
| Links.Link.LengthBetweenAfterInit | PlanarMechanismSimulator/link.cs:153-156 | after initialisation, two different rigid joints have the distance between their initial positions, and a pair with a sliding joint has no length |
| Links.Link.DistanceBetweenSlidesAfterInit | PlanarMechanismSimulator/link.cs:217-226 | after initialisation the signed offset of two different joints is the stored one, else the negated reverse one, else KeyNotFound |
| Links.Link.DistanceBetweenSlidesReversed | PlanarMechanismSimulator/link.cs:225 | where only (a, b) is stored, reading (b, a) gives the negated offset |
| Links.Link.AngleOfBlockToJointAfterInit | PlanarMechanismSimulator/link.cs:233-239 | after initialisation a block angle is known exactly when the first joint slides or is a P joint: 0 when both slide, else slide angle less the joint-to-joint angle |
| Links.Link.InitialisedKeysInRange | PlanarMechanismSimulator/link.cs:126-131 | after initialisation every key of the three tables lies in [0, numJoints²) |
| Links.Link.LengthBetweenOffLink | PlanarMechanismSimulator/link.cs:202-205 | a joint that is not on the link has no length to another joint |
| Links.Link.TotalLength | PlanarMechanismSimulator/link.cs:61-67 | the total is non-negative and bounds every absolute length |
| Links.Link.MaxLength | PlanarMechanismSimulator/link.cs:47-53 | fails exactly on an empty table; otherwise bounds every absolute length, is reached by one, and lies in [0, TotalLength] |
| Links.Link.SetLength | PlanarMechanismSimulator/link.cs:282-290 | refuses a joint with itself and changes nothing; otherwise writes under the canonical key, reads back in both orders, and leaves every other pair's length unchanged; the other tables are outside its frame |
| Links.Link.Copy | PlanarMechanismSimulator/link.cs:295-311 | a fresh link with equal tables, name, joint count and angles, an empty joint list, not ground |
| Links.SetLengthOnCopy | PlanarMechanismSimulator/link.cs:295-311 | a length set on a copy changes the copy's table only; the original's three tables are unchanged |
| UrlArgumentHandling.ReplaceChar | PMKS_Web/URLArgumentHandling.cs:41 | `Replace(char, char)`: same length; every `from` becomes `to` and every other character is kept |
| UrlArgumentHandling.ReplaceCharRoundTrip | PMKS_Web/URLArgumentHandling.cs:34 | replacing back undoes a replacement when the text held no `to` |
| UrlArgumentHandling.ReplaceCharRemoves | PMKS_Web/URLArgumentHandling.cs:41-42 | after the replacement the text holds no `from` |
| UrlArgumentHandling.ReplaceCharKeeps | PMKS_Web/URLArgumentHandling.cs:41-42 | any other character occurs after the replacement exactly when it occurred before |
| UrlArgumentHandling.ReplaceCharAbsent | PMKS_Web/URLArgumentHandling.cs:42 | replacing a character the text does not hold changes nothing |
| UrlArgumentHandling.ReplaceDoubleSpaces | PMKS_Web/URLArgumentHandling.cs:43 | one left-to-right pass of `Replace("  ", " ")` never lengthens the text and keeps its first character |
| UrlArgumentHandling.ReplaceDoubleSpacesKeepsOut | PMKS_Web/URLArgumentHandling.cs:43-45 | the pass adds no character the text did not hold |
| UrlArgumentHandling.ReplaceDoubleSpacesNone | PMKS_Web/URLArgumentHandling.cs:43-45 | a text without a double space is unchanged |
| UrlArgumentHandling.LeadingRun | PMKS_Web/URLArgumentHandling.cs:43 | one pass turns a run of k spaces at the start of the text into ⌈k/2⌉ spaces and rewrites the rest on its own |
| UrlArgumentHandling.LeadingRunTwice | PMKS_Web/URLArgumentHandling.cs:43-45 | the two passes turn a run of k spaces at the start of the text into ⌈k/4⌉ spaces |
| UrlArgumentHandling.ReplaceDoubleSpacesConcat | PMKS_Web/URLArgumentHandling.cs:43 | the pass rewrites a text split after a non-space character as the two parts rewritten apart |
| UrlArgumentHandling.NoTrailingSpaceKept | PMKS_Web/URLArgumentHandling.cs:43 | the pass keeps a last character that is not a space |
| UrlArgumentHandling.ReplaceDoubleSpacesRun | PMKS_Web/URLArgumentHandling.cs:43 | one pass turns a maximal run of k spaces, wherever it stands, into ⌈k/2⌉ spaces and rewrites the text on either side on its own |
| UrlArgumentHandling.ReplaceDoubleSpacesTwiceRun | PMKS_Web/URLArgumentHandling.cs:43-45 | the two passes turn a maximal run of k spaces, wherever it stands, into ⌈k/4⌉ spaces |
| UrlArgumentHandling.LongRunKeepsDoubleSpace | PMKS_Web/URLArgumentHandling.cs:43-45 | a run of more than four spaces anywhere in the text still leaves a double space after both passes |
| UrlArgumentHandling.FiveSpacesBetweenNumbers | PMKS_Web/URLArgumentHandling.cs:43-45 | `1`, five spaces, `2` still holds a double space after both passes |
| UrlArgumentHandling.EncodeMechanism | PMKS_Web/URLArgumentHandling.cs:41-45 | the encoded body is no longer than the text and holds no line break and no comma |
| UrlArgumentHandling.MechanismToUrl | PMKS_Web/URLArgumentHandling.cs:38-47 | the result is `mech=` followed by the encoded body, with no line break and no comma |
| UrlArgumentHandling.UrlToMechanism | PMKS_Web/URLArgumentHandling.cs:34 | same length, and no `|` is left |
| UrlArgumentHandling.LineBreaksRoundTrip | PMKS_Web/URLArgumentHandling.cs:34 | for a text without `|`, turning `|` back into line breaks undoes the step at line 41 |
| UrlArgumentHandling.MechanismRoundTrip | PMKS_Web/URLArgumentHandling.cs:29-47 | a text without `|`, commas or double spaces survives `MechanismToUrl` then `UrlToMechanism` unchanged |
| UrlArgumentHandling.CommaBecomesSpace | PMKS_Web/URLArgumentHandling.cs:42 | a comma does not survive the round trip: `1,2` comes back as `1 2` |
| UrlArgumentHandling.TrimStart | PMKS_Web/URLArgumentHandling.cs:52 | the result is a suffix of the text that does not start with white space, and everything dropped is white space |
| UrlArgumentHandling.TrimEnd | PMKS_Web/URLArgumentHandling.cs:52 | the result is a prefix of the text that does not end with white space, and everything dropped is white space |
| UrlArgumentHandling.Trim | PMKS_Web/URLArgumentHandling.cs:52 | the trimmed text neither starts nor ends with white space |
| UrlArgumentHandling.WhiteSpaceCharacters | PMKS_Web/URLArgumentHandling.cs:52 | `char.IsWhiteSpace` of .NET 4 holds for space, tab, line breaks, no-break space, U+180E and the ideographic space, and not for the separators `,` `|` `&` `=`, U+200B or U+FEFF |
| UrlArgumentHandling.IsNullOrWhiteSpace | PMKS_Web/URLArgumentHandling.cs:52 | holds exactly for a null text or one whose trim is empty |
| UrlArgumentHandling.TrimEmptyIffWhiteSpace | PMKS_Web/URLArgumentHandling.cs:52 | the trimmed text is empty exactly when the text is all white space |
| UrlArgumentHandling.TargetShapeToUrl | PMKS_Web/URLArgumentHandling.cs:49-56 | empty exactly for a null or blank text or one whose trim is the placeholder; otherwise `ts=`, the text with commas as spaces, and `&`: length +4, no comma |
| UrlArgumentHandling.TargetShapeArgument | PMKS_Web/URLArgumentHandling.cs:54-55 | `ts=` + the text with commas as spaces + `&`, with no comma and length +4 |
| UrlArgumentHandling.PlaceholderYieldsNothing | PMKS_Web/URLArgumentHandling.cs:52-53 | the placeholder, with or without surrounding white space, yields no argument |
| UrlArgumentHandling.VowelSeparatorYieldsNothing | PMKS_Web/URLArgumentHandling.cs:52-53 | a text holding only U+180E is blank and yields no argument |

## Left out

- `AngleIsKnown` and its `KnownState` type are not modelled. KnownState is not part of this model, and `Copy` copies the field without using it.
- `Velocity`, `VelocityLast` and `Acceleration` are plain fields. The simulator, position finder, velocity and acceleration solvers and the concurrent sweeps are not part of this model.
- joint.cs is not part of this model. `SlidingWithRespectTo`, `FixedWithRespectTo` and `SlideAngle` are uninterpreted functions in `Surroundings`, as are `Math.Atan2`, `Math.Tan`, `Math.Cos`/`Math.Sin` and `StarMath.crossProduct2`.
  - No numeric value of a slide offset or a block angle is proved.
  - `s.slideAngle` is the value `SlideAngle` returns after `MakeSlideAnglesRelative` has shifted `initSlideAngle` (link.cs:111-112), as lines 177, 185 and 257 read it. The model does not tie it to the field.
  - `findOrthoPoint` is modelled on its own. The offset `addSlideDictionaryEntry` stores from it is one uninterpreted value per ordered pair.
- `Math.Sqrt` has no Dafny counterpart. `Constants.distance` is stated as the relation `IsDistance` (non-negative, squares to the squared distance), and the link receives the distance as a function.
- IEEE rounding is not modelled: doubles are reals, and integers are unbounded. `numJoints * i + j` cannot overflow a 32-bit int for fewer than 46341 joints.
- Constants.SolveViaIntersectingLines: NaN and infinity exist only as the `NonFinite` case of slopes and results. A result whose y is NaN or infinite is stated as non-finite, not as a particular NaN or infinity: with an infinite slope B the y is NaN or ±∞ depending on the points.
- The constants of Constants.cs that these helpers do not use (`epsilon`, step sizes, limits) are not modelled.
- `Constants.angle(point, point)` is folded into the coordinate form `Constants.Angle`.
- Links.Link.DetermineLengthsAndReferences: requires each joint to occur once in the link's list. A list holding one joint object twice would have that joint's slide angle shifted twice, and its two positions would share one `IndexOf`. The model does not describe that case.
- The joint list is a `seq` of joint references. The model does not follow another link or the simulator changing the `List<joint>` object after construction.
- Before `DetermineLengthsAndReferences` the source's three dictionaries are null. The model starts them empty, so on a link not yet initialised it differs from the source:
  - a read through `lengthBetween`, `DistanceBetweenSlides` or `angleOfBlockToJoint` throws `NullReferenceException` in the source; the model gives `KeyNotFound`;
  - `SetLength` (link.cs:288-289) throws `NullReferenceException`; the model writes the length into the empty table;
  - `TotalLength` (link.cs:65) throws `NullReferenceException`; the model gives 0;
  - `MaxLength` (link.cs:51) throws `NullReferenceException`; the model gives `EmptySequence`;
  - `Copy` throws `ArgumentNullException` from `new Dictionary<int, double>(null)` (link.cs:305); the model copies the empty tables.
- Links.Link.MaxLength: ghost, and so is `TotalLength`. The sum is taken over the map's entries in an unspecified order, which is exact over reals but not the source's floating-point summation order.
- Links.Link.Copy: the copy's joint list is empty, as the private constructor leaves it. Every later `lengthBetween` or `SetLength` on the copy therefore finds `IndexOf == -1` for both joints and uses the key `-numJoints - 1`. SetLengthOnCopy states that key.
- `UrlToTargetShape`, the `HtmlPage` query-string access, the writes into text boxes and `ConvertTextToData` are not modelled. They are user-interface code.
- `JointData.ConvertDataToText` is not part of this model. Its output is the `text` argument of `MechanismToUrl`.
- `DisplayConstants.TargetShapeQueryText` is not part of this model. It is the `placeholder` argument of `TargetShapeToUrl`, and the text box's null text is `None`.
- `char.IsWhiteSpace` is the set of the .NET 4 runtime, which follows Unicode 5 and so counts U+180E as a space. Later runtimes, which follow Unicode 6.3 and drop U+180E, are not modelled. No Unicode normalisation, case folding or URL escaping is modelled.
