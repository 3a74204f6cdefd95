# entity, modelled in Dafny

This project models the core of **entity**, a Go program that evolves
populations of real vectors. Every driver runs the same generation loop. The
coordinates of a vector are split into blocks by a shuffled map. A
multivariate Gaussian is fitted to each block of the best state rows. New
individuals are drawn block by block and scored by the driver's fitness. The
population is sorted, and the best rows become the next state.

The model covers:

- the generation bookkeeping shared by the drivers (`evolution.dfy`);
- the matrix shape algebra of `matrix.go` and the `dot` of `vector/` (`matrix.dfy`, `vector.dfy`);
- the front end of `NewMultiVariateGaussian`: mean and covariance, the two descent loops, gradient clipping and the moment update (`gaussian.dfy`);
- the recurrent-layer driver of `main.go` with `L2` and its state copy (`driver.dfy`);
- the brainfuck interpreter with its gene decoding, fitness and elitist loop (`brainfuck.dfy`);
- the 8-queens attack counter and its loop (`queens.dfy`);
- the bit packing, Euclid step count and exit test of the factoring driver (`factor.dfy`);
- the tokenizer, the 8-byte codec of 64-bit patterns, the model file layout, the context vectors and the sampler of the text model (`text.dfy`);
- the bit-plane pixel packing and non-elitist loop of the image model (`image.dfy`);
- the grouping, histogram merging, majority vote and scoring of the iris model (`iris.dfy`).

Floats are `real`. Outputs of `math/rand` are parameters. The fitter and the
gradient are function parameters. Goroutine fan-outs are sequential loops over
task indices, with the source's `flight` and counter bookkeeping. Loops that
change state are methods proved against specification functions. The
properties are proved about those functions.

Some behaviour is modelled as written even where it looks accidental:

- the inverse descent loop never advances its iteration counter, so its
  16*1024 cap is unreachable; the iris and text models call
  `NewMultiVariateGaussian` with cutoff -1 and inversion on (iris.go:34,
  text.go:63), so there the inverse loop stops only on a non-finite cost
  (`Gaussian.FitAIExits`);
- the state copy in `main.go` writes the bias at offset 16 over the layer;
- the brainfuck fitness squares rune differences in 32-bit arithmetic, so a
  square can wrap to 0 or below 0 (`Brainfuck.WrappedSquareVanishes`,
  `Brainfuck.WrappedSquareNegative`);
- the tokenizer's byte counter wraps (see Findings).

## Model

| member | source | states |
|---|---|---|
| Vector.Dot | vector/floats_other.go:7-12 | the loop's z equals the sum of x[i]*y[i] over i < len(x), and 0 for an empty x |
| Vector.DotIgnoresTail | vector/floats_other.go:8-9 | entries of y past len(x) are never read: changing them leaves the product unchanged |
| Vector.DotZeroTail | vector/floats_other.go:8-9 | when y is zero from index k on, only the first k entries of x contribute |
| Vector.DotScale | vector/floats_other.go:9 | scaling y by s scales the product by s |
| Vector.DotSymmetric | vector/floats_other.go:7-12 | for slices of equal length the product does not depend on argument order |
| Common.ReadGene | bf.go:132-139 | the three-step shift loop yields gene x: bit 2, 1, 0 are set exactly when coordinates 3x, 3x+1, 3x+2 are positive, so y < 8 |
| Common.CopyInto | image.go:89 | Go's copy: the first min(len(dst), len(src)) entries come from src, the rest of dst stays, the length is len(dst) |
| Matrices.Row | matrix.go:56-58 | row r is the slice Data[r*Cols : r*Cols+Cols]: Cols entries, entry c being (r, c) |
| Matrices.FlattenLength | matrix.go:55-61 | appending blocks of width w gives len(blocks)*w entries |
| Matrices.FlattenAt | matrix.go:55-61 | entry j of block i lands at index i*w+j |
| Matrices.Stacked | matrix.go:49-61 | the appended blocks read back as a well-formed matrix with block i as row i |
| Matrices.MulT | matrix.go:44-63 | panics exactly when the column counts differ; otherwise Cols = m.Rows, Rows = n.Rows and entry (r, c) is dot(row c of m, row r of n) |
| Matrices.MulTVector | matrix.go:44-63 | for a one-row n (a vector g), entry c of the product is dot(row c of A, g): the matrix-vector product |
| Matrices.BroadcastData | matrix.go:77-79 | entry i of the output is m[i] op n[i mod len(n)] for each of the len(m) entries |
| Matrices.Broadcast | matrix.go:66-117 | Add, Sub and Hadamard panic exactly when len(n) is 0 or does not divide len(m); otherwise the shape of m is kept and entry i is m[i] op n[i mod len(n)] |
| Matrices.AddSubCancel | matrix.go:66-99 | over reals, subtracting n from m.Add(n) gives back m |
| Matrices.T | matrix.go:187-199 | Cols and Rows swap and entry (i, j) of the transpose is entry (j, i) of m |
| Matrices.TransposeTwice | matrix.go:187-199 | transposing twice gives back the matrix |
| Matrices.RowTotals | matrix.go:177-182 | after k rows the accumulator's entry j is the total of column j over the first k rows |
| Matrices.Sum | matrix.go:171-184 | one row of width Cols whose entry j is the total of column j |
| Gaussian.Average | gaussian.go:27-37 | avg has size entries; with vectors present, avg[i] times the vector count is the total of coordinate i; with none it stays all zero |
| Gaussian.MeanAndCovariance | gaussian.go:27-57 | the loops produce the mean of every coordinate and a size x size matrix whose entry (i, ii) is the mean product of deviations, as Covariance defines it |
| Gaussian.AddMeasures | gaussian.go:29-31 | one measurement is added coordinate by coordinate; coordinates past its length add nothing |
| Gaussian.AddDeviations | gaussian.go:43-49 | one measurement adds (avg[i]-v[i])*(avg[ii]-v[ii]) to every cell (i, ii) it covers |
| Gaussian.DivideAll | gaussian.go:51-56 | every cell is divided by the vector count |
| Gaussian.TotalOfCopies | gaussian.go:28-32 | n copies of v total n times v in each coordinate |
| Gaussian.ScatterOfCopies | gaussian.go:42-50 | copies of v have zero deviation products about v |
| Gaussian.IdenticalCopies | gaussian.go:27-57 | for one or more copies of v the mean is v and the covariance is zero |
| Gaussian.ScatterSymmetric | gaussian.go:44-47 | the accumulated deviation products are symmetric in (i, ii) |
| Gaussian.ScatterDiagonal | gaussian.go:44-47 | the diagonal accumulates squares, so it is never negative |
| Gaussian.CovarianceShape | gaussian.go:38-57 | the covariance is symmetric and has a non-negative diagonal |
| Gaussian.PowerInUnit | gaussian.go:119-125 | the bias powers B1^(i+1) and B2^(i+1) lie strictly between 0 and 1, so 1 - b never vanishes |
| Gaussian.SecondMomentNonNegative | gaussian.go:154 | the second moment B2*v + (1-B2)*g*g stays non-negative |
| Gaussian.Corrected | gaussian.go:158-161 | vhat is never negative and equals v/(1-b2) whenever that is non-negative |
| Gaussian.SecondMoments | gaussian.go:154-156 | each second moment becomes B2*v + (1-B2)*g*g and stays non-negative when it was |
| Gaussian.AdamStep | gaussian.go:151-163 | one update keeps the three slices aligned and the second moments non-negative; each weight follows its own moments |
| Gaussian.SquaresNonNegative | gaussian.go:137-139 | every prefix of the sum of squared derivatives is non-negative |
| Gaussian.SquaredNormNonNegative | gaussian.go:135-141 | the squared norm is non-negative, so its square root exists |
| Gaussian.Scaling | gaussian.go:143-146 | the factor lies in (0, 1] and is 1 up to unit norm |
| Gaussian.SquaredNormScaled | gaussian.go:152 | scaling a gradient by s scales its squared norm by s*s |
| Gaussian.ScalingInverse | gaussian.go:144-145 | above unit norm, factor times norm is 1 |
| Gaussian.ClipBound | gaussian.go:141-146 | the factor bounds the scaled squared total by 1 |
| Gaussian.ClipArithmetic | gaussian.go:141-146 | the squared factor times the squared norm is at most 1 |
| Gaussian.ClippedGradient | gaussian.go:135-152 | after clipping by the joint norm of both weights' gradients, their summed squares are at most 1 |
| Gaussian.ClippedBy | gaussian.go:143-152 | the same bound for any factor with the clipping factor's two properties |
| Gaussian.Update | gaussian.go:147-164 | one iteration's update keeps the weights sound and their length |
| Gaussian.FitABounds | gaussian.go:117-170 | the first loop makes at most 1024 updates, keeps the weights sound, ends Capped exactly after 1024 updates, and converges early only when cutoff is not -1 |
| Gaussian.FitAIExits | gaussian.go:197-249 | with i never advanced the 16*1024 cap is never reached: the inverse loop stops only on a non-finite cost or, with cutoff != -1, below cutoff |
| Gaussian.ClipFactorBound | gaussian.go:135-146 | the factor computed from a gradient clips both weights' summed squares to at most 1 |
| Gaussian.Weight.Step | gaussian.go:151-163 | the in-place loop leaves the weight in the state AdamStep describes and keeps it sound |
| Gaussian.SumSquares | gaussian.go:135-140 | the loop adds the squared norm of the derivatives to the running norm |
| Gaussian.Clip | gaussian.go:135-146 | the loop computes the clipping factor of the gradient |
| Gaussian.FitANext | gaussian.go:127-169 | one finite-cost iteration of the first loop is one Update followed by the exit tests |
| Gaussian.FitAINext | gaussian.go:207-248 | one finite-cost iteration of the inverse loop is one Update followed by the exit tests |
| Gaussian.DescendA | gaussian.go:117-170 | the first descent loop leaves A, the update count and the exit reason as FitA gives them |
| Gaussian.DescendAI | gaussian.go:197-249 | the inverse loop leaves AI and the exit reason as FitAI gives them |
| Gaussian.Flat | gaussian.go:97-102 | E.X holds the covariance row by row: entry (i, ii) of the size x size layout is cov[i][ii] |
| Gaussian.Identity | gaussian.go:103-112 | I.X is the size x size identity, row by row |
| Gaussian.NewMultiVariateGaussian | gaussian.go:23-284 | A and AI are size x size, u is the mean as a column; A is the first loop's fit to the covariance; AI is the inverse loop's fit when invert is set and the initial weights otherwise |
| Evolution.Tiling | main.go:1239-1242 | translate[i] = i mod models: width entries, each a block id below models |
| Evolution.Swap | main.go:1243-1245 | the swap exchanges entries i and j and leaves every other entry |
| Evolution.SwapPermutes | main.go:1243-1245 | a swap keeps the multiset of block ids |
| Evolution.ShuffledPermutes | main.go:1243-1245 | the shuffle's swaps keep the multiset of block ids |
| Evolution.Partition | main.go:1239-1245 | the map is the tiling after the shuffle's swaps, a rearrangement of it, with every id below models |
| Evolution.Shuffle | main.go:1243-1245 | the in-place swaps leave the array as Shuffled describes |
| Evolution.PermutedIds | main.go:1239-1245 | any rearrangement of the tiling holds only ids below models |
| Evolution.TilingCount | main.go:1239-1242 | when models divides the width, every block id occurs width/models times in the tiling |
| Evolution.BlockCount | main.go:1240-1242 | each id below models occurs once in 0..models-1 |
| Evolution.BlockSizes | main.go:1239-1245 | after the shuffle every block still has width/models coordinates |
| Evolution.Project | main.go:1252-1256 | the row gathered for block b has one entry per coordinate of the block |
| Evolution.PrefixCount | main.go:1252-1256 | extending the scanned prefix counts the new coordinate's block once more |
| Evolution.RankBound | main.go:1297-1301 | the index a coordinate gets within its block is below the block's size |
| Evolution.ProjectAt | main.go:1252-1256 | coordinate iv is entry Rank(iv) of its block's gathered row |
| Evolution.Gather | main.go:1250-1257 | the process task's loops give, for every state row, the projection of block ii |
| Evolution.Scatter | main.go:1296-1302 | the learn task's vector has width entries, coordinate iv taking the next unused value of its block's sample |
| Evolution.ScatterAt | main.go:1296-1302 | coordinate iv takes entry Rank(iv) of its block's sample |
| Evolution.RanksCovered | main.go:1296-1302 | when every sample is long enough, every coordinate's index is in range |
| Evolution.ScatterGather | main.go:1250-1302 | gathering a row block by block and scattering the blocks back gives the row |
| Evolution.Sample | main.go:1289-1303 | the writes into vector.Data produce Scatter's vector |
| Evolution.SampleBlock | main.go:1297-1301 | the inner loop writes block b's coordinates in increasing order from its sample |
| Evolution.Draw | main.go:1296 | a[iii].MulT(g).Add(u[iii]) is A*g + u: entry c is dot(row c of A, g) + u[c] |
| Evolution.Draws | main.go:1291-1296 | each block's sample has the fitted dimension |
| Evolution.DrawsCover | main.go:1291-1302 | with blocks no larger than the fitted dimension, every block's sample covers it |
| Evolution.Newborn | main.go:1304-1306 | a learn task stores a width-long vector and the score of that vector |
| Evolution.BornStart | main.go:1283-1286 | born is all of pop in generation 0 and pop[cut:] afterwards |
| Evolution.SortByFitness | main.go:1352-1354 | pop ends ascending by fitness and is a permutation of what it was |
| Evolution.Insert | main.go:1352-1354 | one insertion pass extends the sorted prefix and permutes pop |
| Evolution.Exchange | main.go:1243-1245 | the in-place swap equals Swap and permutes the array |
| Evolution.HeadNeverIncreases | bf.go:229-232 | with the elites pop[:cut] kept, the sorted head is no worse than any of them |
| Evolution.Dispatch | main.go:1261-1277 | every fan-out launches and receives each task once, with at most cpus in flight and the peak reaching cpus or the task count |
| Evolution.FitBlocks | main.go:1248-1277 | slot b receives the fitter's (A, u) for block b's gathered rows |
| Evolution.SamplesCover | main.go:1287-1303 | every learn task's samples cover the map |
| Evolution.Newborns | main.go:1287-1306 | one new individual per learn task, each width long |
| Evolution.NewbornsAt | main.go:1287-1306 | entry k is the individual of the k-th task's samples |
| Evolution.Learn | main.go:1283-1350 | the learn tasks replace born = pop[start:] by the newborns and leave pop[:start] |
| Evolution.LearnOne | main.go:1287-1333 | one learn task creates the newborn of its noise draw |
| Evolution.CopyState | bf.go:277-279 | each state row becomes copy(state[ii], pop[ii].vector) |
| Evolution.CopyWhole | bf.go:277-279 | copying a vector of the row's width replaces the row by it |
| Evolution.Generation | main.go:1238-1354 | one generation: the map is a shuffled tiling with blocks of exactly the fitted size, block b's Gaussian is fitted to its gathered rows, pop ends sorted and is the kept prefix plus the newborns, and the head is no worse than any kept elite |
| Evolution.Replace | bf.go:229-276 | the learn tasks refill pop[start:], pop is sorted, it is a permutation of the kept prefix plus the newborns, and every member stays scored |
| Evolution.ScoredJoin | bf.go:229-276 | scored individuals followed by scored individuals are scored |
| Evolution.NewbornsScored | bf.go:233-255 | every newborn carries the score of its own vector |
| Evolution.ScoredPermuted | bf.go:274-276 | a rearrangement of scored individuals is scored |
| Evolution.Breed | bf.go:187-276 | a generation leaves pop sorted and scored, with the head no worse than any kept elite |
| Evolution.BlocksExact | bf.go:189-195 | a shuffled tiling of models*size coordinates has blocks of exactly size |
| Evolution.FittedByShape | bf.go:198-227 | the fitted (A, u) pairs have the Gaussian's shape |
| Evolution.ElitistGeneration | bf.go:187-279 | one elitist generation: pop sorted and scored, the head no worse than the previous elites, state rows equal the new elites |
| Evolution.ElitistRun | bf.go:187-311 | the elitist loop: at most the iteration count of heads, heads never increase, it stops early only at fitness 0, the last head is pop[0], pop is sorted and scored, and state holds the elites |
| Driver.L2 | main.go:632-640 | the loop returns the sum of squared differences over a, which is never negative |
| Driver.DistanceNonNegative | main.go:632-640 | the accumulated squared distance is never negative |
| Driver.DistanceToSelf | main.go:632-640 | a vector is at distance 0 from any vector that begins with it |
| Driver.DistanceIgnoresTail | main.go:632-640 | entries of b beyond the length of a do not matter |
| Driver.Tiled | main.go:1199-1205 | width = 256*256 + 256 splits into 8224 blocks of 8 exactly |
| Driver.BlocksOfEight | main.go:1199-1245 | after the shuffle every block id occurs 8 times in the map |
| Driver.Split | main.go:1304-1305 | the learned vector splits into a 256x256 layer and a 256x1 bias whose data concatenate back to it |
| Driver.RnnRowEntries | main.go:1355-1358 | after the two copies a state row holds layer entries 0..15, the bias at 16..271, the layer again up to 65536, and its own old tail |
| Driver.RnnRowNotVector | main.go:1355-1358 | the copy does not store the individual whenever a bias entry differs from the layer entry it lands on |
| Driver.CopyRnnState | main.go:1355-1358 | every state row becomes the row described by RnnRow for its individual |
| Driver.Regenerate | main.go:1239-1354 | with this iteration's score, pop ends sorted, a permutation of the kept elites (none in iteration 0, pop[:8] afterwards) plus newborns that carry this score, every member of full width, and from iteration 1 on the head no worse than any of the 8 elites |
| Driver.Iteration | main.go:1238-1358 | one iteration: the shuffled map, the fitted blocks, pop sorted as a permutation of the kept elites plus newborns scored by this iteration's window, full width, the head no worse than the 8 elites from iteration 1 on, and each state row the offset-16 copy of its elite |
| Brainfuck.Int32 | bf.go:67 | the int32 conversion lands in [-2^31, 2^31) and keeps every value already there |
| Brainfuck.Int32Periodic | bf.go:67 | values 2^32 apart convert to the same int32 |
| Brainfuck.Written | bf.go:62-67 | WriteRune of the cell's magnitude as int32 writes a valid code point, the cell itself for 0..0xD7FF |
| Brainfuck.ForwardSearch | bf.go:95-109 | the scan stops at the first position where the bracket depth returns to 0, or at the last index when it never does |
| Brainfuck.MatchForwardSound | bf.go:95-109 | findMatchingForward returns the matching ']' after position, with the depth positive in between, or len(p) - 1 when none exists |
| Brainfuck.FindMatchingForward | bf.go:95-109 | the loop returns MatchForward |
| Brainfuck.BackwardSearch | bf.go:111-125 | the backward scan stops at the first depth-0 position, or at -1 |
| Brainfuck.MatchBackwardSound | bf.go:111-125 | findMatchingBackward returns the matching '[' before position, with the depth positive in between, or -1 when none exists |
| Brainfuck.FindMatchingBackward | bf.go:111-125 | the loop returns MatchBackward |
| Brainfuck.Boot | bf.go:35-42 | the machine starts with zero memory, pc, dc, cycles and output, in a sound state |
| Brainfuck.Step | bf.go:44-91 | one cycle: the cycle count grows by 1, '?' changes nothing else, only '.' appends to the output, and it appends the written rune of the current cell |
| Brainfuck.Execute | bf.go:34-93 | the interpreter with array memory produces the output of Run from the boot state |
| Brainfuck.RunOutputBound | bf.go:44-70 | the run only appends to the output and stops once it has size runes |
| Brainfuck.SpinsOnQuestion | bf.go:46 | on '?' the pc never moves, so the run ends with the output it has |
| Brainfuck.DrawIrrelevant | bf.go:72-74 | programs without ',' (all decoded ones) produce the same output whatever the random draws |
| Brainfuck.StepIgnoresDraw | bf.go:72-74 | one cycle of such a program does not depend on the draws |
| Brainfuck.Program | bf.go:131-141 | a vector decodes to 128 opcodes, opcode x being Genes of the sign bits of entries 3x..3x+2, never ',' |
| Brainfuck.Decode | bf.go:131-141 | the decoding loop returns Program |
| Brainfuck.Padded | bf.go:145-147 | the output is padded with 0 runes to the target's length |
| Brainfuck.Score | bf.go:142-153 | the scoring loops return Error of the output |
| Brainfuck.ErrorExact | bf.go:148-151 | while no difference exceeds 46340 the fitness is non-negative, and 0 exactly when the output is the target |
| Brainfuck.TermExact | bf.go:149-150 | one squared difference of at most 46340 is non-negative and 0 exactly for equal runes |
| Brainfuck.TargetScoresZero | bf.go:142-153 | "Hello World!" itself scores 0 |
| Brainfuck.WrappedSquareVanishes | bf.go:149-150 | an output differing from the target by 65536 in one rune scores 0 too, as 65536^2 wraps to 0 in int32 |
| Brainfuck.WrappedSquareNegative | bf.go:149-150 | a difference of 46341 wraps the square below 0, so the fitness is negative |
| Brainfuck.Tiled | bf.go:170-176 | width 384 splits into 4 blocks of 96 exactly |
| Brainfuck.BlocksOfNinetySix | bf.go:170-195 | after the shuffle every block id occurs 96 times in the map |
| Brainfuck.BF | bf.go:170-311 | the loop runs at most 1024 iterations with non-increasing heads, stops early only at fitness 0, keeps every member scored by the interpreter's fitness, and leaves the 256 elites in state |
| Queens.Rows | queens.go:20-27 | a vector gives 8 rows below 8, column x's row read from the sign bits of entries 3x..3x+2 |
| Queens.BoardOf | queens.go:19-29 | the board has 64 cells and cell (y, x) is occupied exactly when column x's queen is in row y |
| Queens.BoardAt | queens.go:28 | cell (y, x) is occupied exactly when column x's queen is in row y |
| Queens.Place | queens.go:19-29 | the placing loop writes BoardOf of the decoded rows |
| Queens.CountQueens | queens.go:30-35 | the counting loop returns the number of occupied cells |
| Queens.CountByRows | queens.go:30-35 | the cells before row y, column x hold the queens in lower rows plus the ones among the first x columns in row y |
| Queens.EightQueens | queens.go:30-39 | every board has exactly 8 queens, so the panic on sum != 8 is never reached |
| Queens.Ray | queens.go:45-116 | each ray loop reports whether a queen lies along the direction from (i, ii) |
| Queens.Cell | queens.go:40-117 | an empty cell adds 0 and an occupied one adds the number of directions that see a queen |
| Queens.Attacks | queens.go:40-119 | the loops over the board return the sum of the occupied cells' scores |
| Queens.Fitness | queens.go:17-120 | the fitness function returns QueensScore of the vector |
| Queens.VerticalSilent | queens.go:57-68 | one queen per column: the vertical rays never see a queen |
| Queens.SafeSeesNothing | queens.go:45-116 | on a board with no two queens on a row or diagonal, no ray from a queen sees another |
| Queens.UnsafeSees | queens.go:45-116 | a queen sharing a row or diagonal with another scores above 0 |
| Queens.AttackSumZero | queens.go:40-119 | the sum is 0 exactly when every occupied cell scores 0 |
| Queens.SafeScoresZero | queens.go:40-119 | a safe placement has fitness 0 |
| Queens.ClashScores | queens.go:40-119 | a placement with a clash has fitness above 0 |
| Queens.ZeroIffSafe | queens.go:40-119 | the fitness is 0 exactly when no two queens share a row or diagonal |
| Queens.AttackBound | queens.go:40-119 | each queen adds at most 6 to the sum |
| Queens.ScoreAtMost48 | queens.go:17-120 | the fitness lies between 0 and 48 |
| Queens.Queens | queens.go:132-254 | the loop runs at most 1024 iterations with non-increasing heads, keeps every member scored, stops early only with a safe 8-queens placement at the head, and leaves the 512 elites in state |
| Factor.Tiled | factor.go:24-29 | width 1024 splits into 16 blocks of 64 |
| Factor.PackedBits | factor.go:125-130 | bit k of the number packed from entry m on is set exactly when entry m + k is positive |
| Factor.PackedHigh | factor.go:125-130 | bits beyond the vector are clear |
| Factor.NumberBits | factor.go:125-130 | bit k of the individual's number is set exactly when k is an index of a positive entry |
| Factor.LowSplit | factor.go:125-130 | the number is its low k bits plus 2^k times the number packed from entry k |
| Factor.BelowClear | factor.go:125-130 | a number below 2^k has bit k clear |
| Factor.PackBits | factor.go:125-130 | the SetBit loop returns the number whose bits are the positive entries |
| Factor.Euclid | factor.go:132-142 | the remainder loop ends with the gcd of number and target, and the fitness counts its iterations, at least 1 |
| Factor.GcdDivides | factor.go:136-142 | the loop's result divides both number and target |
| Factor.GcdPositive | factor.go:136-142 | with a positive target the result is positive |
| Factor.GcdGreatest | factor.go:136-142 | every common divisor divides the result |
| Factor.ExitMeans | factor.go:143-147 | the exit is taken exactly when number and target share a divisor above 1; it reports that greatest common divisor and the exact quotient |
| Factor.ExitOnMultiple | factor.go:143-147 | a number that is a multiple of the target exits with (target, 1) |
| Factor.Judge | factor.go:123-147 | a learn task's fitness is the Euclid step count, at least 1, and its exit decision is Exit of its number |
| Factor.Scan | factor.go:143-147 | some individual exits exactly when one of them shares a divisor with the target, and the exit reported is one of theirs |
| Factor.Round | factor.go:60-175 | a round of 16 iterations either exits with an individual's divisor, or ends with pop sorted, no individual sharing a divisor with the target, and the 8 elites in state |
| Factor.Search | factor.go:50-176 | any exit of the restart loop reports a divisor above 1 and its cofactor, whose product is the target |
| Text.Firsts | text.go:30-31 | the distinct runes of the text, each once, in order of first occurrence |
| Text.NewStep | text.go:31-34 | giving an unseen rune the current code keeps the codes counting up from 0 in order, modulo 256 |
| Text.TokenStep | text.go:30-38 | one rune of the loop keeps the tokenizer's state the coding of the distinct runes read so far |
| Text.Tokenize | text.go:29-39 | the loop leaves the forward and reverse maps and the byte counter of the coding of the text's distinct runes |
| Text.CodesRoundTrip | text.go:29-39 | with at most 256 distinct runes, reverse[forward[v]] == v for every rune seen |
| Text.CodesBelow | text.go:29-39 | every code is below the number of distinct runes |
| Text.CodeReused | text.go:34-37 | with more than 256 distinct runes the byte counter wraps, the guard never fires, and some rune's code names another rune |
| Text.TokenizeChecked | text.go:29-39 | the tokenizer with a guard that can fire: it fails exactly when there are more than 256 distinct runes, and otherwise covers every rune with codes that round-trip |
| Text.EncodeBits | text.go:67-70 | a 64-bit pattern is written as 8 bytes |
| Text.DecodePrefix | text.go:129-133 | after k steps the decoder holds the value of the last k bytes |
| Text.Encode | text.go:65-70 | the byte loop fills the buffer with EncodeBits, byte i being bits 8i..8i+7 |
| Text.Decode | text.go:129-133 | the shift-and-or loop over bytes 7..0 returns DecodeBits |
| Text.DecodeShr | text.go:67-70 | the bytes of a pattern from i on decode to the pattern shifted right by 8i |
| Text.DecodeEncode | text.go:65-133 | decoding the writer's 8 bytes gives back the 64-bit pattern |
| Text.EncodeDecode | text.go:65-133 | encoding a decoded 8-byte buffer gives back the buffer |
| Text.EncodeAll | text.go:66-78 | n patterns take 8n bytes |
| Text.EncodeAllAppend | text.go:66-78 | writing one more pattern appends its 8 bytes |
| Text.SerializeAppend | text.go:51-105 | writing one more symbol appends its u, A and AI bytes |
| Text.WriteAll | text.go:66-78 | a parameter loop appends the encoding of its values to the file |
| Text.WriteSymbol | text.go:65-104 | one symbol's writes append u, then A, then AI |
| Text.Save | text.go:51-105 | the writer's file is the serialization of every symbol's model in order |
| Text.PrefixedTwice | text.go:115-177 | prefixing read values twice is prefixing their concatenation |
| Text.PrefixedNothing | text.go:115-177 | prefixing nothing changes nothing |
| Text.ReadValues | text.go:118-136 | the read loop returns ReadBlock: n values and the rest, or None on a short read |
| Text.ReadModel | text.go:116-176 | one symbol's reads return ReadSymbol |
| Text.Read | text.go:115-182 | the reader returns Load: the models of every symbol, or None on a short read or when bytes remain before EOF |
| Text.ReadEncoded | text.go:118-136 | reading n values from their encoding followed by anything returns them and leaves the rest |
| Text.ReadExact | text.go:118-136 | a successful read consumed exactly the encoding of the n values it returns |
| Text.ReadSymbolEncoded | text.go:116-176 | reading a symbol's bytes returns the symbol |
| Text.ReadSerialized | text.go:115-177 | reading a saved file's symbols returns the models and leaves the rest |
| Text.LoadSave | text.go:51-182 | loading what the writer saved gives back the models |
| Text.ReadSymbolExact | text.go:116-176 | a successful symbol read consumed exactly that symbol's bytes, with u, A and AI of the right sizes |
| Text.ReadSymbolsExact | text.go:115-177 | a successful read of all symbols consumed exactly their bytes |
| Text.LoadExact | text.go:109-182 | a load succeeds only on exactly the writer's file of well-shaped models |
| Text.CodeFits | text.go:54-57 | a code that fits is a valid index of the context vector |
| Text.DistinctCard | text.go:40 | distinct runes make a set of the same size |
| Text.LengthFits | text.go:40 | length is the number of distinct runes and every code is below it |
| Text.Window | text.go:56-57 | the context window holds the codes of the 8 runes before the position |
| Text.Tally | text.go:55-57 | a histogram has one bucket per symbol, non-empty exactly for the symbols that occur |
| Text.TallyAppend | text.go:57 | counting one more code adds 1 to its bucket |
| Text.TallySum | text.go:55-57 | the buckets add up to the number of codes counted |
| Text.ContextSum | text.go:55-58 | a context vector has one entry per symbol and its entries add up to 8 |
| Text.ContextVector | text.go:55-58 | the counting loop returns Context of the position |
| Text.SymbolContexts | text.go:52-62 | the loop over datum[8:] returns the contexts of symbol i's occurrences, in order |
| Text.ContextsCount | text.go:52-62 | there is one training vector per occurrence of the symbol from position 8 on |
| Text.ContextsShape | text.go:52-62 | every training vector has one entry per symbol and sums to 8 |
| Text.ClosestIsFirstMinimum | text.go:212-226 | the scan skips candidate 0, returns the first candidate of least distance below MaxFloat64, and 0 only when none is below it |
| Text.Pick | text.go:212-226 | the candidate loop returns Closest |
| Text.RowEntries | text.go:213-222 | vote t's fitness row holds the distance of each candidate |
| Text.FitsShape | text.go:211-226 | 128 votes, each with one fitness per symbol |
| Text.PicksBelow | text.go:211-227 | every pick is a symbol index |
| Text.Vote | text.go:210-228 | the voting loop returns the histogram of the picks |
| Text.VotesSum | text.go:210-228 | the histogram's buckets add up to the number of votes |
| Text.DrawnMeaning | text.go:229-237 | the draw is the first bucket whose running total exceeds the sample, with its count, and (0, 0) when the total never does |
| Text.Sample | text.go:229-237 | the running-sum loop returns Drawn |
| Text.DrawnAt | text.go:229-237 | a bucket whose running totals straddle the sample is the draw |
| Text.RuneRoundTrip | text.go:238-239 | with at most 256 distinct runes, candidate c is the c-th distinct rune, whose code is c again |
| Text.StepGain | text.go:229-237 | with a sample below 128 the drawn bucket holds between 1 and 128 votes |
| Text.Step | text.go:206-239 | one step appends the sampled rune to the prompt and yields its bucket's count |
| Text.CompletionShape | text.go:205-240 | generation appends one rune per step, keeps the prompt, and gains between 1 and 128 per step |
| Text.CompletionAdvance | text.go:205-240 | the completion after one more step is the completion of the extended prompt |
| Text.Complete | text.go:203-240 | the step loop returns the completion and its grand total |
| Text.ResultsEntries | text.go:202-245 | round r's result is the completion of the fixed prompt with its distances and samples |
| Text.BestIsFirstMaximum | text.go:242-244 | the kept result has the largest grand total and is the first with it, or the empty text when every total is 0 |
| Text.BestAdvance | text.go:242-244 | the best after one more round is the old best or the new round, whichever has the strictly larger total |
| Text.Generate | text.go:200-246 | the 33 rounds return the best completion and its grand total |
| Text.GenerateShape | text.go:200-246 | the kept text is the prompt plus 8 runes, with a grand total between 8 and 1024 |
| Image.TransposeAt | image.go:50-55 | GrayAt(iii, iv) is pixel iv*8 + iii while the plane entry is iii*8 + iv: the two indices are transposes |
| Image.TransposeTwice | image.go:50-55 | transposing a pixel index twice gives it back |
| Image.PictureUpTo | image.go:43-59 | the image after the first n planes has 64 pixels |
| Image.PixelUpToBits | image.go:50-57 | after n planes, bit v of a pixel is set exactly when v < n and plane v is positive there |
| Image.PixelBits | image.go:43-59 | bit v of pixel (iii, iv) is set exactly when entry iii*8 + iv of plane v is positive |
| Image.PixelIsSum | image.go:54 | or-ing the distinct plane bits equals adding them |
| Image.PictureStep | image.go:44-59 | painting plane n onto the image of the first n planes gives the image of n + 1 planes |
| Image.PaintStep | image.go:50-57 | painting one more pixel keeps the pixels painted so far and leaves the rest |
| Image.Paint | image.go:50-58 | the pixel loops of plane v leave the image Painted by it |
| Image.Widened | image.go:45-48 | the 8 draws occupy the start of a 64-entry noise vector, the rest is 0 |
| Image.NoiseTail | image.go:45-49 | a plane is A times the 8 draws plus u: only the first 8 columns of A take part |
| Image.FlatIndex | image.go:31 | index i of the flattened planes lies in plane i / 64 at entry i % 64 |
| Image.Flat | image.go:31 | the flattened planes have 64 entries per plane |
| Image.PlanesOf | image.go:31 | a 512-entry vector splits into 8 planes of 64 |
| Image.FlatStep | image.go:31 | flattening one more plane appends it |
| Image.LaidStep | image.go:44-49 | laying one more plane appends it |
| Image.LaidIsFlat | image.go:44-49 | the planes laid one after the other are the flattened planes |
| Image.LaidFlat | image.go:44-49 | laying all planes gives the flattened vector |
| Image.FlatPlanes | image.go:31 | splitting the flattened planes gives the planes back |
| Image.Develop | image.go:43-59 | the plane loop lays the eight drawn planes into the vector and paints them into the image |
| Image.Newborn | image.go:42-65 | a new entity is the drawn planes with the JPEG length of its image as fitness |
| Image.Snapshot | image.go:94-106 | the snapshot of pop[0] paints the image of its planes |
| Image.FitPlanes | image.go:38-40 | the fitting loop returns the Gaussians of the eight state rows |
| Image.BornsWide | image.go:41-82 | every newborn has 8 planes of 64 entries |
| Image.WidePermuted | image.go:83-85 | a rearrangement of full-width entities is full width |
| Image.Breed | image.go:41-82 | the population loop fills pop with the newborns |
| Image.KeepHead | image.go:86-93 | state[v][ii] becomes plane v of the ii-th best entity, for the 8 best |
| Image.Generation | image.go:36-117 | one iteration: pop is a sorted rearrangement of the newborns of the fitted Gaussians, state holds the 8 best entities' planes, and the picture is pop[0]'s image |
| Image.HeadForgets | image.go:41-85 | without elites the new head is the best newborn, whatever came before: when every newborn is worse than the previous head, the head gets worse |
| Image.Run | image.go:35-118 | 256 iterations, one head and one picture each; the last are pop[0]'s fitness and image, pop ends sorted and state holds the best entities' planes |
| Iris.LabelOf | main.go:86-90 | Labels maps versicolor to 1, virginica to 2, and every other name, setosa or unknown, to 0 |
| Iris.Members | iris.go:22-27 | the measures of a species' flowers in file order, never more than the flowers |
| Iris.MembersStep | iris.go:22-27 | one more flower adds its measures to its own species' list only |
| Iris.MembersGrow | iris.go:22-27 | a prefix of the file has no more members of a species than the file |
| Iris.MembersPartition | iris.go:18-29 | every flower belongs to exactly one of the three species' lists |
| Iris.FilledStep | iris.go:25-26 | appending a flower's measures to the next empty slot is the table of one more member |
| Iris.FileAdvance | iris.go:22-27 | a flower of the species fills the next slot and moves index on by one |
| Iris.Collect | iris.go:20-28 | a species' loop fails (index out of range) exactly when it has more than 50 flowers, and otherwise fills the first slots with its members in order, the rest empty |
| Iris.Group | iris.go:18-29 | grouping fails exactly when some species has more than 50 flowers, and otherwise gives the three species' tables |
| Iris.Process | iris.go:52-73 | a task's histogram has a 1 in each flower's chosen class and 0 elsewhere |
| Iris.Count | iris.go:84-104 | the merged count of a class for a flower is at most the number of tasks |
| Iris.CountStep | iris.go:86-90 | merging one more task adds 1 exactly where it chose the class |
| Iris.RowTotal | iris.go:84-104 | a flower's counts over the three classes add up to the number of tasks merged |
| Iris.Merge | iris.go:86-90 | merging adds every count of the task's histogram to the total and changes nothing else |
| Iris.Receive | iris.go:85-90 | receiving the next task's histogram makes the total the tally of one more task |
| Iris.Classify | iris.go:75-104 | the fan-out launches and receives 16 tasks and the total is their merged histogram, every row summing to 16 |
| Iris.ScanIsFirstMax | iris.go:108-113 | the vote is the first class with the largest count, and class 0 when every count is 0 |
| Iris.Vote | iris.go:108-113 | the scan returns the first class of largest count |
| Iris.Correct | iris.go:106-117 | the number of flowers whose vote is their species, at most the flowers |
| Iris.CorrectAll | iris.go:106-117 | every flower is counted correct exactly when every flower's vote is its species |
| Iris.Score | iris.go:106-117 | the scoring loop returns Correct of the histogram |
| Iris.Model | iris.go:16-194 | the run fails exactly when a species has more than 50 flowers; otherwise it returns the three species' tables and both classifiers' scores, each at most 150 |

## Left out

- The autodiff loss and gradient (gaussian.go:115, 129, 195, 209) are a function parameter that returns the cost, a finite flag and the two partial derivatives; `sqrt` is a parameter required to be a square root.
- The random initialisation `sqrt(2/size)` of the weights (gaussian.go:84-86) is a parameter.
- IEEE rounding, float32 storage and NaN propagation are not modelled: floats are `real`, and "the cost is NaN or infinite" is the gradient's finite flag.
- `math.Float64bits` and `math.Float64frombits` are left out: the text codec works on the 64-bit pattern, a number below 2^64.
- Gaussian.FitAI: the inverse loop has no reachable bound, so the model runs it for at most `fuel` iterations and reports `OutOfFuel` after that; it states nothing about a loop that never converges.
- Plotting with gonum (gaussian.go:172-191, 251-270) and all `fmt` output are left out: they do not affect results.
- File and archive I/O is left out: the embedded zip/CSV loader (main.go:100-147), bzip2 decompression, and creating or opening model.bin. Byte streams are sequences.
- The UTF-8 decoding of `string(data)` into runes (text.go:30, 40) is left out, including the U+FFFD that invalid bytes become: the text model starts from a sequence of `char`.
- JPEG encoding is left out: the image model takes the length of the encoding as a function parameter `jpeg` of the pixels.
- Goroutines, channels and `runtime.NumCPU` are left out: tasks run one at a time in index order, and results are received in launch order. `Evolution.Dispatch` models only the launch and wait counters of the fan-out; it is not connected to the tasks it would run.
- The outputs of `rng.Shuffle`, `NormFloat64`, `Intn` and `Int63` are parameters: swap choices, noise vectors and samples.
- The recomputed distance of a candidate in text generation (text.go:217-222) is a function parameter `distance` of the context vector, the vote and the candidate, because it draws fresh noise.
- `NewMultiVariateGaussian`, as used by the drivers, is a fitter parameter returning (A, u) of the right shape.
- The diagnostics loop of the text model (text.go:184-198) only prints, and is left out.
- An image individual's eight 64-entry planes are held as one 512-entry vector, split back by `Image.PlanesOf`.
- Queens.ScoreAtMost48: bounds the fitness by 0 and 48 but does not prove that it is even.
- Factor.Search: runs the restart loop over a given finite list of rounds; the source restarts forever until an exit.
- Factor.Scan: the exit is decided after all learn tasks of a generation; in the source a task exits as soon as it finds a divisor.
- `big.Int.ProbablyPrime` prime generation (factor.go:31-45) is left out: the target is a parameter, required to be positive.
- The iris model's float classification and calibration diagnostic (iris.go:35-43, 55-70, 128-143) are left out: the class each task picks for each flower is a parameter.
- The iris histogram counts are `uint64` in the source; they never exceed 16, so they are naturals here.
- Iris.Score: requires exactly 150 flowers, because the source's histograms have a fixed 150 rows.
- Text.SymbolContexts: requires at least 8 runes, because the source's `datum[8:]` panics on shorter texts.
- Add, Sub and Hadamard are one `Matrices.Broadcast` with the operator as a parameter. The float64 `dot` of matrix.go:201-217 is the same sum as `Vector.DotSum`.
- `Softmax`, `Sigmoid`, `Entropy`, `softmax` and `SelfAttention` (matrix.go:120-168, 219-261) are left out: they rely on exp and log.
- rnn.go, transformer.go, entropy.go and ff.go are not part of this model. Their fitness functions are float networks, and their bookkeeping is the shared generation loop.
- The copies of the Gaussian, iris, text and image code inside main.go are modelled once, from their own files.
- The order of equal-fitness individuals after `sort.Slice` is not stated: only sortedness and the permutation are.
- The recurrent layer's evaluation on text (main.go:1307-1333) is a float network: the driver's score is a function parameter.
- Driver.Iteration: `score` stands for the text window drawn in this iteration (main.go:1279-1281); the 8 kept elites carry fitnesses from earlier windows, so nothing is promised about how their fitness relates to `score`.
- Vector.DotSum: requires |x| <= |y|; the source's `dot` panics with an index out of range on a shorter y (vector/floats_other.go:8-9), and that panic is not modelled.
- Vector.Dot: requires |x| <= |y|, excluding the same out-of-range panic; every caller in the model passes rows of equal width.
- Driver.SquaredDistance: requires |a| <= |b|; `L2` panics on a shorter b (main.go:635), and that panic is not modelled.
- Driver.L2: requires |a| <= |b|, excluding the same out-of-range panic.
- Gaussian.MeanAndCovariance: requires every measurement to have at most `size` coordinates; a longer one makes `avg[i]` go out of range (gaussian.go:29-31), and that panic is not modelled.
- Gaussian.NewMultiVariateGaussian: requires the same bound on the measurements, excluding the same panic.
- Matrices.T: requires a well-formed matrix (data of length rows * cols); the source's `m.Data[j*m.Cols+i]` (matrix.go:195) panics on shorter data and ignores extra entries, and neither case is modelled.
- Matrices.Sum: requires a well-formed matrix; the source's `m.Data[offset+j]` (matrix.go:180) panics on shorter data and ignores extra entries, and neither case is modelled.
- Text.ContextVector: requires every code to index the context vector and a positive length, excluding the out-of-range panic of `vector.Data[forward[...]]++` (text.go:208), which the empty text would reach.
- Text.Vote: requires a positive length, excluding the out-of-range panic of `histogram[index]++` (text.go:227) on the empty text.
- Text.Step: requires the same code bound and positive length, excluding the same two panics.
- Text.Complete: requires the same code bound and positive length, excluding the same two panics.
- Text.Generate: requires the same code bound and positive length, excluding the panics of text.go:208 and text.go:227 on the empty text.
- Matrices.MulT: requires both operands well formed (data of length rows * cols); the call in image.go:45-49 with 8 of 64 entries is modelled by `Image.Widened`, which widens the operand to the zeroed spare capacity the source reads.

## Findings

| source | as written | input that shows it | evidently intended | confidence | as-written member | corrected member |
|---|---|---|---|---|---|---|
| text.go:29-37 | `code` is a byte, so `code++` wraps from 255 to 0 and the guard `code > 255` can never fire | any text with 257 distinct runes: rune 257 gets code 0 and `reverse[0]` is overwritten, so the first rune's code now names another rune | the panic "not enough codes" when a rune would need a 257th code | not executed | Text.CodeReused | Text.TokenizeChecked |
