# Packed secret sharing and circuit evaluation in Dafny

A Dafny model of three components, and proofs of what they promise.

**Packed Shamir sharing over an FFT** (`packed-ss-template/`). `l` secrets and `d + 1 - l` random values
define a polynomial of degree `d`, whose values at the powers of a generator of order `2^m` are the
shares. The fast scheme works in place on arrays of field elements: a transform with an interleaved
bit reversal, its inverse by flipping indices, products and vanishing polynomials by transforms, and
interpolation by a truncated power series. The simple scheme multiplies by a matrix of Lagrange
coefficients. Files: `Modular`, `Poly`, `Fft`, `InverseFft`, `Interpolation`, `SeriesFft`, `Field14`,
`PackedSpec` (what sharing and recovery mean), `PackedSS`, `Lagrange`, `NaivePSS`, `Refinement`.

**Circuit evaluation by n parties** (`turbopack/`). TurboPack evaluates layered circuits batch by batch
on packed sharings with preprocessed triples; P1 learns every value minus a mask. DN07 is the baseline,
whose last parties do all their work before there are inputs. Parties are objects that send and receive
field elements over first-in first-out channels. Files: `Scl` (the sharing library), `PackedSharing`,
`Sequences`, `Channels`, `Circuits`, `Wiring`, `Dealing`, `Triples`, `Preprocessing`, `Masking`,
`Correlators`, `Parties`, `TurboPack` (`Execute` is the end-to-end result), `Randomness`, `Building`,
`Config`, `SyntheticValues`, `Cleartext`, `OutputSums` (additions over output gates), `Schedules`,
`TurboSchedules`, `TurboWires`, `LocalViews`, `LocalCuts`, `LocalShares`, `LocalMasks`, `LocalOnline`,
`TurboLocal` (the parties as functions of what they know, in all interleavings), and `Dn07Sharing`,
`Dn07Dealing`, `Dn07Parties`, `Dn07`, `Dn07Randomness`, `Ramps`, `Dn07Extra`.

**Arithmetic protocols over p = 2^31 - 1** (`Shamir-secret-sharing-template/`). Word arithmetic,
truncation with a random mask, constant-round prefix products, comparison of bit rows, sign and ReLU,
tournament maximum, Shamir sharings from agreed randomness, degree reduction and Beaver triples. Files:
`Words`, `Gfp`, `GfpScalars`, `Fermat`, `Truncation`, `BitProtocols`, `Comparison`, `Maxpool`, `Shamir`,
`DegreeReduction`, `Beaver`, `FirstLayer`.

Field elements are integers in `[0, p)`; specifications are about plain integers and their residues.
Randomness is an argument everywhere, and every statement is for all of its values. That the three
moduli are prime (3193032821761, 2^61 - 1 and 2^31 - 1) is a hypothesis, `IsPrime`, of the statements
that need it. That the generator has order exactly `2^m` is proved for the hard-coded field.
Exceptions and error exits are results or out-parameters.

## Findings

Properties that the code does not have, with the input that shows it and the exact condition.

- DN07 with more than 2t + 1 parties. The constructor accepts every n > 2t (`turbopack/src/tp/dn07.h:49`), but
  the parties t + 1, ..., n - t - 1 keep shares that do not belong to the inputs' sharings. For every t and
  every n > 2t + 1 a product of two inputs comes out wrong: `Dn07Extra.ExtraRun` multiplies t + 1 by 1
  and obtains n - t. `Dn07Extra.ExactNumber`: for n > 2t all outputs of all circuits are right, for
  all inputs and randomness, if and only if n = 2t + 1.
- The check of surplus points in recovery (`packed-ss-template/PackedSS.hpp:196-207`). With l = d = 2 and
  n = 3 the constructor succeeds, and the second loop starts at index -1, even with no surplus points
  (`PackedSS.ReadsBelowZero`). `PackedSS.OptimizedPSS.RecoveryReads`: for a valid scheme the loops stay
  inside if and only if l + d + 1 is at most half the group.
- Truncation (`Shamir-secret-sharing-template/Protocols/Share.cpp:505-519`). Above 2^29 - 2^12 the mask
  2^30 - 1 and below -2^29 the mask 2^30 give a result that is not within 1. `Truncation.TruncationExact`: of
  all signed values, exactly those in [-2^29, 2^29 - 2^12] are truncated within 1 for every mask.
- Parity, sign and ReLU (`Shamir-secret-sharing-template/Protocols/ShareBundle.cpp:1387-1453`). The
  negation of 0 is 0, so a shown value of 0 hides the wrap-around. `Comparison.GetLSB` is wrong if and only
  if x plus the mask is p; `GetMSB` and `DeltaReLU` are right if and only if 2x mod p plus the mask
  is not p; for the remaining masks `ReLU` keeps the negative values instead.
- Inversion of a row (`Shamir-secret-sharing-template/Math/gfpMatrix.h:315-344`). One zero makes all results
  zero; without zeros every entry is inverted (`GfpScalars.BatchInversion`).
- Square roots (`Shamir-secret-sharing-template/Math/gfpScalar.h:389-399`). The result is a root if and only if
  the argument is a square (`Gfp.SqrtExact`).
- Additions that read output gates (`turbopack/src/tp/circuits/offline.cc:132-149`). A circuit may use an output
  gate as a parent, and DN07, the cleartext evaluation, multiplications and outputs handle it; but additions get
  their shares before outputs do (the comment at `turbopack/src/tp/correlator.h:130` says that all parents are
  handled by then) and count 0 for the mask of such a parent. With inputs x, an output on x and an
  output on the sum of the two, TurboPack returns a wrong sum (`OutputSums.DoubledInputWrong`).
  `OutputSums.OutputSumsExact`: whatever wire of a layered circuit is made an output, the outputs are right for all
  inputs and randomness if and only if, for every addition and every input or multiplication, the number of
  additive paths from the latter to the output parents of the former is a multiple of 2^61 - 1. Without
  such additions that number is 0, and `TurboPack.Execute` returns the cleartext outputs.
- Synthetic circuits (`turbopack/src/tp/circuits/generic.cc:4-67`). Configurations that pass the four tests, or
  never reach them, still fail: no inputs at all (inp_gates = [0], out_gates = [0], n_parties = 1) divide by zero in
  the test of the width; inp_gates = [2], out_gates = [1], n_parties = 1, width = 0, depth = 1, batch_size = 1 divides
  by zero at the first output; the same with width = 2 and depth = 0 reads layer -1; batch_size = 0 is refused by the
  first input's batch. `Config.FromConfig` states each of the eight outcomes as an if-and-only-if: a circuit
  is built exactly if the lengths are right, there are inputs, their number is even and divides the width, the
  batch size is positive, and width and depth are positive in case there are outputs.

## Model

| member | source | states |
|---|---|---|
| Fft.ReverseAdd | packed-ss-template/PackedSS.hpp:539-548 | the carry running from the top bit steps the counter from the bit reversal of k to that of k + 1 |
| Fft.BitRevInvolution | packed-ss-template/PackedSS.hpp:539-548 | reversing bits twice gives the index back, so the first pass reads every input position exactly once |
| Fft.FirstStage | packed-ss-template/PackedSS.hpp:483-508 | the pass through the scratch space reads original values only: it leaves sums and differences of the bit-reversed pairs of the input |
| Fft.Butterflies | packed-ss-template/PackedSS.hpp:510-530 | after all stages every position j holds the input polynomial at gen^j, for every size and every generator of the right order |
| Fft.Transform | packed-ss-template/PackedSS.hpp:459-532 | in place, position j ends up with the value of the input polynomial at gen^j |
| Fft.PreserveTransform | packed-ss-template/PackedSS.hpp:552-614 | the same values in a fresh vector, with the input left alone |
| InverseFft.InverseTransform | packed-ss-template/PackedSS.hpp:616-638 | in place, what the code computes by transforming, flipping indices, scaling and cutting |
| InverseFft.InverseUndoes | packed-ss-template/PackedSS.hpp:616-638 | it undoes the transform for every truncation length, in both branches |
| InverseFft.Spectral | packed-ss-template/PackedSS.hpp:617-625 | transforming the values once more gives the coefficients in reverse, N times |
| InverseFft.ProductByTransform | packed-ss-template/PackedSS.hpp:260-275 | transforming, multiplying pointwise and transforming back is the exact product of polynomials |
| Interpolation.TailIsQuotient | packed-ss-template/PackedSS.hpp:138-176 | at a root of A the tail of A times a geometric series is the value of the quotient A / (x - r) |
| Interpolation.FastInterpValues | packed-ss-template/PackedSS.hpp:138-176 | A times the power series of P / A, cut at degree d, takes the prescribed values |
| SeriesFft.ValuesAreSeries | packed-ss-template/PackedSS.hpp:413-445 | the negated values of N at the inverse points are the coefficients of that power series |
| SeriesFft.SeriesTimesVanishing | packed-ss-template/PackedSS.hpp:138-176 | hence their product with A, cut, is the polynomial through the points |
| Field14.GeneratorOrder | packed-ss-template/PackedSS.hpp:316-323 | 14 to the power (p - 1) / 2^m has order exactly 2^m in the hard-coded field, for 1 <= m <= 10 |
| Field14.GeneratorValues | packed-ss-template/PackedSS.hpp:322-323 | the generator of order 2^10 is 2280254066972, and each smaller one is the square of the next, which fixes all ten |
| PackedSpec.PolyThroughUnique | packed-ss-template/PackedSS.hpp:138-176 | there is only one polynomial of that degree through the points |
| PackedSpec.SharesContainDefining | packed-ss-template/PackedSS.hpp:112-119 | the first shares are the defining values behind the secrets |
| PackedSpec.RecoverAccepts | packed-ss-template/PackedSS.hpp:178-213 | recovery succeeds if and only if all supplied points lie on one polynomial of degree at most d, and then gives its values at the secret points |
| PackedSpec.RoundTrip | packed-ss-template/PackedSS.hpp:108-220 | any prefix of at least d + 1 shares gives back exactly the secrets, for all secrets and all randomness |
| PackedSS.OptimizedPSS.constructor | packed-ss-template/PackedSS.hpp:310-404 | for all accepted parameters the points are the powers of the generator, even ones first, and both vanishing polynomials and their inverted derivatives are in place |
| PackedSS.OptimizedPSS.Create | packed-ss-template/PackedSS.hpp:311-321 | a wrong field is refused first, then more than 1024 points; everything else gets a valid scheme |
| PackedSS.OptimizedPSS.DFT | packed-ss-template/PackedSS.hpp:459-468 | the transform with the generator of the chosen power |
| PackedSS.OptimizedPSS.PolyMult | packed-ss-template/PackedSS.hpp:248-277 | a becomes the exact product, b is restored, and products that do not fit are refused with a unchanged |
| PackedSS.OptimizedPSS.MultPolyList | packed-ss-template/PackedSS.hpp:222-242 | divide and conquer gives the product of any list that fits, and refuses exactly the others |
| PackedSS.OptimizedPSS.MultiplyRoots | packed-ss-template/PackedSS.hpp:279-287 | the product of x - root over any index list that fits |
| PackedSS.OptimizedPSS.ComputeN | packed-ss-template/PackedSS.hpp:413-445 | in place, the negated values at the inverse points, d + 1 of them |
| PackedSS.OptimizedPSS.PtToCoeff | packed-ss-template/PackedSS.hpp:138-176 | the unique polynomial of degree at most d through d + 1 values, for both point sets, and a refusal for any other number of values |
| PackedSS.OptimizedPSS.SetSecrets | packed-ss-template/PackedSS.hpp:101-106 | more than l secrets are refused and change nothing |
| PackedSS.OptimizedPSS.SecretShareValues | packed-ss-template/PackedSS.hpp:108-136 | share i is the value at point l + i of the polynomial through secrets and randomness, across the even and odd powers |
| PackedSS.OptimizedPSS.CutShares | packed-ss-template/PackedSS.hpp:126-134 | the shares behind the defining values, picked from the even and then the odd positions of the transform |
| PackedSS.OptimizedPSS.RecoverSS | packed-ss-template/PackedSS.hpp:178-220 | returns exactly the specified recovery: secrets, too few points, or a wrong point; surplus points are cut off |
| PackedSS.OptimizedPSS.CheckSurplus | packed-ss-template/PackedSS.hpp:196-213 | the two loops together accept exactly if every surplus point is on the polynomial |
| PackedSS.OptimizedPSS.KeepSecrets | packed-ss-template/PackedSS.hpp:214-219 | in place, the values at the l secret points |
| PackedSS.OptimizedPSS.RecoveryReads | packed-ss-template/PackedSS.hpp:196-207 | for a valid scheme the check reads surplus points only exactly if l + d + 1 fits in the half group |
| PackedSS.ReadsBelowZero | packed-ss-template/PackedSS.hpp:196-207 | l = d = 2 and n = 3 is accepted by the constructor, and the check reads below index zero even with no surplus points |
| PackedSS.CeilLog2Ten | packed-ss-template/PackedSS.hpp:316-321 | the size guard is exactly n + l <= 1024 |
| NaivePSS.HIM.InitHIMByVectors | packed-ss-template/libscapi_utils/include/primitives/Matrix.hpp:105-143 | the matrix of Lagrange coefficients from alpha to beta, refused exactly if the sizes differ |
| NaivePSS.HIM.MatrixMult | packed-ss-template/libscapi_utils/include/primitives/Matrix.hpp:197-213 | multiplying evaluates the Lagrange interpolation at every beta |
| NaivePSS.LagrangeIsPolyThrough | packed-ss-template/libscapi_utils/include/primitives/Matrix.hpp:105-143 | Lagrange interpolation gives the values of the polynomial that the fast code computes |
| Lagrange.LagrangeExact | packed-ss-template/libscapi_utils/include/primitives/Matrix.hpp:105-143 | interpolating the values of a polynomial of small degree evaluates it, everywhere |
| NaivePSS.PackedSecretShare.SetSecrets | packed-ss-template/PackedSS.hpp:713-723 | more than l secrets are refused and change nothing |
| NaivePSS.PackedSecretShare.SecretShareValues | packed-ss-template/PackedSS.hpp:771-798 | the matrix gives the shares of the polynomial through the defining values |
| NaivePSS.PackedSecretShare.RecoverSS | packed-ss-template/PackedSS.hpp:731-769 | the matrix gives the specified recovery |
| Refinement.ShareBothWays | packed-ss-template/PackedSS.hpp:108-136 | both schemes, built and run on the same defining values, give the same n shares |
| Refinement.RecoverBothWays | packed-ss-template/PackedSS.hpp:178-220 | both give the same secrets or the same refusal |
| Scl.RebuiltIs | turbopack/src/tp/correlator.cc:22-44 | reconstruction from enough shares gives the value of the shared polynomial at every point |
| Scl.PackedSecrets | turbopack/src/tp/fi_prep.cc:248-264 | a packed sharing carries its secrets at 0, -1, ... |
| Scl.PackedShares | turbopack/src/tp/fi_prep.cc:14-15 | and its random values are the shares of the first parties |
| Scl.SingleValues | turbopack/src/tp/fi_prep.cc:47-67 | a sharing of one secret carries it, and its random values are its first shares |
| PackedSharing.PackSlot | turbopack/src/tp/correlator.h:171-181 | weighting sharings with the shares of the unit vectors puts the j-th secret in slot j |
| PackedSharing.DeltaValue | turbopack/src/tp/correlator.cc:140-163 | at a slot the local combination is lambda_A * lambda_B - lambda_C |
| PackedSharing.ProductValue | turbopack/src/tp/mult_gate.cc:45-53 | at a slot the online combination is the product masked by lambda_C |
| Dealing.MixShare | turbopack/src/tp/fi_prep.cc:24-45 | the Vandermonde combination of received shares is a share of the combined polynomial |
| Dealing.IndDealHolds | turbopack/src/tp/fi_prep.cc:5-22 | a dealt individual sharing has the drawn secret in every slot and the drawn values as the first shares |
| Dealing.UnpackedDealHolds | turbopack/src/tp/fi_prep.cc:47-67 | a dealt factor or mask has the drawn secret at its slot and the drawn values as the first t shares |
| Dealing.ZeroDealHolds | turbopack/src/tp/fi_prep.cc:120-136 | a dealt sharing of zero has zeros in all slots and the drawn values as the first n - k shares |
| Dealing.ZeroProdDealHolds | turbopack/src/tp/fi_prep.cc:170-189 | the same at one slot, with n - 1 drawn shares |
| Dealing.MixBlocksSame | turbopack/src/tp/fi_prep.cc:24-45 | mixing keeps a secret equal in all slots |
| Dealing.MixBlocksZero | turbopack/src/tp/fi_prep.cc:138-168 | mixing keeps zeros |
| Correlators.Correlator.PrecomputeEi | turbopack/src/tp/correlator.h:171-181 | the shares of the unit vectors |
| Correlators.Correlator.SetThreshold | turbopack/src/tp/correlator.h:92-100 | accepted exactly if n = t + 2(k - 1) + 1 and n > 2t |
| Correlators.Correlator.PrecomputeVandermonde | turbopack/src/tp/correlator.h:183-193 | row j holds the powers 0 to t of j |
| Correlators.Correlator.GenIndShrsPartiesSend | turbopack/src/tp/fi_prep.cc:5-22 | everyone is sent its share of every dealt sharing, and no other channel changes |
| Correlators.Correlator.GenIndShrsPartiesReceive | turbopack/src/tp/fi_prep.cc:24-45 | this party then holds its shares of the mixed sharings |
| Correlators.Correlator.GenUnpackedShrPartiesSend | turbopack/src/tp/fi_prep.cc:47-67 | one row of sharings of degree t for every slot |
| Correlators.Correlator.GenUnpackedShrPartiesReceive | turbopack/src/tp/fi_prep.cc:69-118 | first factors, second factors and masks of every slot, and the packed factors of every triple |
| Correlators.Correlator.GenZeroPartiesSend | turbopack/src/tp/fi_prep.cc:120-136 | sharings of zero of degree n - 1 |
| Correlators.Correlator.GenZeroPartiesReceive | turbopack/src/tp/fi_prep.cc:138-168 | three zero shares for every triple; the input and output batches take the first 2m and those after 3m, as the code does |
| Correlators.Correlator.GenZeroForProdPartiesReceive | turbopack/src/tp/fi_prep.cc:191-219 | zero shares that hide the products |
| Correlators.Correlator.GenProdPartiesSendP1 | turbopack/src/tp/fi_prep.cc:221-232 | shares of every masked product, to P1 only |
| Correlators.Correlator.GenProdP1ReceivesAndSends | turbopack/src/tp/fi_prep.cc:234-269 | P1 takes one share of each party for every product and returns shares that vanish for the first t parties |
| Correlators.Correlator.GenProdPartiesReceive | turbopack/src/tp/fi_prep.cc:271-297 | removing the mask and packing completes the triples |
| Correlators.Correlator.PopulateIndvShrs | turbopack/src/tp/correlator.h:123-136 | input and multiplication gates take the fresh shares in turn, then additions and then outputs follow their parents; an output that an addition reads counts as 0 |
| Correlators.Correlator.PrepIOPartiesSendOwner | turbopack/src/tp/correlator.cc:8-20 | a masked packed share of a batch, to its owner |
| Correlators.Correlator.PrepIOOwnerReceives | turbopack/src/tp/correlator.cc:22-44 | the owner opens all k masks |
| Correlators.Correlator.PrepMultPartiesSendP1 | turbopack/src/tp/correlator.cc:86-102 | masked packed shares of both parents, to P1 |
| Correlators.Correlator.PrepMultP1ReceivesAndSends | turbopack/src/tp/correlator.cc:104-138 | P1 opens both and shares them again with degree k - 1 |
| Correlators.Correlator.PrepMultPartiesReceive | turbopack/src/tp/correlator.cc:140-163 | this party's shares of lambda_A, lambda_B and delta |
| Triples.ProductAtSlot | turbopack/src/tp/fi_prep.cc:221-298 | what is opened and unmasked at slot j is the product of the factors there, of degree at most t |
| Triples.TripleAt | turbopack/src/tp/fi_prep.cc:221-298 | every triple has degree at most n - k, and C = A * B in every slot, for all randomness |
| Triples.PreprocessedGood | turbopack/src/tp/fi_prep.cc:5-298 | for every circuit and all randomness the preprocessing suffices and satisfies all conditions of the online phase |
| Randomness.DealtMessages | turbopack/src/tp/fi_prep.cc:5-22 | what a dealer sends to party b is what it drew for b, for individual sharings and sharings of zero |
| Randomness.DealtSlotMessages | turbopack/src/tp/fi_prep.cc:47-67 | the same for the sharings at one slot |
| Randomness.IndNumbers | turbopack/src/tp/fi_prep.cc:24-45 | individual sharing q(t + 1) + e has in every slot the sum over dealers i of i^e times the secret drawn for block q, and likewise every share |
| Randomness.SlotNumbers | turbopack/src/tp/fi_prep.cc:69-118 | the same for the factors and masks of every slot |
| Randomness.ZeroNumbers | turbopack/src/tp/fi_prep.cc:138-168 | the same for the shares of the sharings of zero |
| Randomness.ZeroProdNumbers | turbopack/src/tp/fi_prep.cc:191-219 | the same for the zeros that hide products |
| Randomness.FactorNumbers | turbopack/src/tp/fi_prep.cc:77-108 | the factors and the mask of triple q at a slot, and their shares, are numbers q, m + q and 2m + q of that slot's mixed sharings |
| Randomness.TripleNumbers | turbopack/src/tp/fi_prep.cc:69-118 | in every slot triple q holds two different numbers of all parties' draws and their product |
| Randomness.TripleZeros | turbopack/src/tp/fi_prep.cc:157-159 | the three zero shares of triple q come from mixed sharings q, m + q and 2m + q |
| Randomness.BatchZeros | turbopack/src/tp/fi_prep.cc:159-164 | which sharing of zero an input or output batch takes, the first 2m shared with the triples |
| Randomness.OpenedProduct | turbopack/src/tp/fi_prep.cc:234-269 | P1 opens the product of two factors plus a mask |
| Randomness.MaskedByAll | turbopack/src/tp/input_gate.h:88-97 | of an input or a multiplication P1 learns what its wire carries minus the combination of what all parties drew |
| Randomness.ProdShareIs | turbopack/src/tp/fi_prep.cc:221-232 | a party's share of a masked product is a b + mask + zero in the field |
| Randomness.MaskedShareIs | turbopack/src/tp/correlator.cc:86-102 | a party's message for a batch is its packed share plus its shares of the factor and of zero |
| Randomness.CorrectionIs | turbopack/src/tp/correlator.cc:140-158 | a party's shares of both masks and of the correction, with the batch's own factors, product and third sharing of zero |
| Randomness.OwnerShareIs | turbopack/src/tp/correlator.cc:47-58 | what a party sends to a batch's owner is its packed share plus its share of the batch's zero |
| Randomness.DeltaShareIs | turbopack/src/tp/correlator.cc:151-158 | a party's share of the correction, in integers modulo p |
| Randomness.ProductShareIs | turbopack/src/tp/mult_gate.cc:45-53 | a party's share of a batch of products, in integers modulo p |
| Preprocessing.LambdasAre | turbopack/src/tp/correlator.cc:86-163 | every multiplication batch has sharings of degree n - k of both parents' masks in every slot |
| Preprocessing.DeltaIs | turbopack/src/tp/correlator.cc:86-163 | and one of degree n - 1 of lambda_A * lambda_B - lambda_C in every slot |
| Preprocessing.IOPolyIs | turbopack/src/tp/correlator.cc:8-83 | an owner opens exactly the masks of its input and output gates |
| Wiring.WireUniform | turbopack/src/tp/gate.h:117-123 | the mask of every wire is the same in every slot, through additions |
| Wiring.InputCovered | turbopack/src/tp/input_gate.h:222-257 | every input of a client is in a batch that it owns |
| Wiring.OutputCovered | turbopack/src/tp/output_gate.h:229-264 | every output of a client is in a batch that it owns |
| Masking.MaskedSteps | turbopack/src/tp/gate.h:101-107 | P1's sum of two masked values is what the wire of the addition carries minus its mask, whatever mask the addition counts for its parents |
| Masking.PlainWires | turbopack/src/tp/gate.h:93-123 | when no addition reads an output gate every wire carries its cleartext value |
| Masking.ProductIs | turbopack/src/tp/mult_gate.cc:45-74 | what P1 opens for a batch is, in every slot, value minus mask of the gate |
| Parties.Party.PrepMultPartiesSendP1 | turbopack/src/tp/circuits/offline.cc:170-175 | masked shares of all batches in layer order |
| Parties.Party.PrepIOOwnerReceives | turbopack/src/tp/circuits/offline.cc:206-217 | the owner ends up knowing the masks of all its gates |
| Parties.Party.SetInputs | turbopack/src/tp/circuits/online.cc:4-11 | refused exactly if the number of inputs is wrong |
| Parties.Party.InputOwnerSendsP1 | turbopack/src/tp/circuits/online.cc:14-19 | value minus mask of every own input, to P1 |
| Parties.Party.InputP1Receives | turbopack/src/tp/circuits/online.cc:21-27 | P1 then knows the masked values of all inputs |
| Parties.Party.GetMu | turbopack/src/tp/gate.h:101-107 | the memoised masked value is value minus mask |
| Parties.Party.MultP1Sends | turbopack/src/tp/mult_gate.cc:4-32 | P1 shares the packed masked values of both parents of every batch |
| Parties.Party.MultPartiesReceive | turbopack/src/tp/mult_gate.cc:34-43 | every party stores its shares of them |
| Parties.Party.MultPartiesSend | turbopack/src/tp/mult_gate.cc:45-53 | shares of the masked products of the layer, to P1 |
| Parties.Party.MultP1Receives | turbopack/src/tp/mult_gate.cc:55-74 | P1 then knows the masked values of the next layer, and all its stored values stay value minus mask |
| Parties.Party.OutputP1SendsMu | turbopack/src/tp/output_gate.h:91-96 | the masked outputs, to their owners |
| Parties.Party.OutputOwnerReceivesMu | turbopack/src/tp/output_gate.h:98-104 | adding the mask gives what the wire carries |
| Parties.Party.GetOutputs | turbopack/src/tp/circuits/online.cc:75-82 | a party's outputs are what its output wires carry |
| TurboPack.FIPrepAll | turbopack/src/tp/circuits.h:189-201 | everyone sends before everyone receives: all mixed sharings are in place and every channel is empty |
| TurboPack.ProdAll | turbopack/src/tp/fi_prep.cc:221-298 | all triples of all parties are complete and every channel is empty |
| TurboPack.GenCorrelator | turbopack/src/tp/circuits/offline.cc:117-130 | a party is set up exactly if the threshold fits |
| TurboPack.MapCorrToCircuit | turbopack/src/tp/circuits/offline.cc:132-168 | all shares of all wires are assigned |
| TurboPack.FDPrepAll | turbopack/src/tp/circuits/offline.cc:170-217 | all batches prepared, all owners' masks open, every channel empty |
| TurboPack.LayerAll | turbopack/src/tp/circuits/online.cc:39-44 | mu = value - lambda moves up one layer for all parties |
| TurboPack.RunProtocol | turbopack/src/tp/circuits/online.cc:66-72 | every client ends with what its output wires carry, and every channel is empty |
| TurboPack.Execute | turbopack/experiments/ours.cc:84-168 | for every layered circuit, all inputs and all randomness every client gets what its output wires carry, and its cleartext outputs if no addition reads an output gate; exactly a wrong threshold and a wrong number of inputs are refused |
| Cleartext.Evaluation.SetClearInputs | turbopack/src/tp/circuits/cleartext.cc:4-14 | refused exactly if the numbers of inputs are wrong |
| Cleartext.Evaluation.GetClear | turbopack/src/tp/gate.h:109-115 | the memoised evaluation is the circuit's meaning |
| Cleartext.Evaluation.GetClearOutputs | turbopack/src/tp/circuits/cleartext.cc:26-36 | all outputs of all clients |
| Cleartext.Compare | turbopack/experiments/ours.cc:132-168 | protocol and evaluation run on one built circuit give equal outputs, if no addition reads an output gate |
| Building.Circuit.Input | turbopack/src/tp/circuits/building.cc:30-36 | a new gate at the end, in the owner's layer, with the invariant of circuits under construction kept |
| Building.Circuit.Output | turbopack/src/tp/circuits/building.cc:38-44 | the same for outputs |
| Building.Circuit.Mult | turbopack/src/tp/circuits/building.cc:46-52 | the same for multiplications, in the current layer |
| Building.Circuit.NewLayer | turbopack/src/tp/circuits/building.cc:54-64 | closes and pads the layer, opens an empty one, keeps the largest width |
| Building.Circuit.LastLayer | turbopack/src/tp/circuits/building.cc:66-72 | closes the last layer and finishes the circuit |
| Building.Circuit.FinishedShape | turbopack/src/tp/circuits/building.cc:66-72 | a finished circuit is well formed, and its batches are the padded layers |
| Building.AppendToLayer | turbopack/src/tp/mult_gate.h:222-233 | a gate goes to the last batch if it has room and to a new one otherwise; refused exactly for a batch size of 0 |
| Building.CloseLayer | turbopack/src/tp/mult_gate.h:238-250 | padding turns the open batches into full ones |
| Circuits.BatchCovers | turbopack/src/tp/mult_gate.h:224-250 | every gate of a layer is in some batch |
| Config.FromConfig | turbopack/src/tp/circuits/generic.cc:4-67 | for every configuration which of eight things happens, each exactly when: the four refusals in their order, a full batch, a division by zero, a read outside the layers, or a closed and layered circuit; of a built circuit which gates are inputs and of whom, that every pair of every layer multiplies x and y with x + y for the two sources it reads, and which gate every output reads |
| SyntheticValues.PairValues | turbopack/src/tp/circuits/generic.cc:31-50 | the two gates of a pair evaluate to x(x + y) and y(x + y) |
| SyntheticValues.LayerCarries | turbopack/src/tp/circuits/generic.cc:31-50 | layer d of a built circuit carries the d-th row of values, the first over the inputs in turn, every later one over the row before |
| SyntheticValues.SyntheticMeaning | turbopack/src/tp/circuits/generic.cc:4-67 | for every built circuit and all inputs, output number j over all clients is entry j modulo the width of the last row of values |
| Config.SimpleIsLayered | turbopack/src/tp/circuits/generic.cc:31-50 | such circuits are layered |
| OutputSums.MaskIsSum | turbopack/src/tp/correlator.h:123-136 | the mask of every wire is the sum of the fresh masks, counted by additive paths that do not enter an addition through an output |
| OutputSums.AdditionError | turbopack/src/tp/correlator.h:129-132 | an addition of right values is off by exactly the sum of the masks that it misses |
| OutputSums.BalancedRight | turbopack/src/tp/circuits/offline.cc:132-149 | if nothing is missing modulo p all outputs of all runs are the cleartext outputs |
| OutputSums.MissingShows | turbopack/src/tp/circuits/offline.cc:132-149 | otherwise the first addition that misses something carries a wrong value for constructed randomness, for every circuit, number of parties and batch size |
| OutputSums.OutputSumsExact | turbopack/src/tp/circuits/offline.cc:132-149 | whatever wire is made an output, all runs give the cleartext outputs if and only if nothing is missing modulo p |
| OutputSums.DoubledInputWrong | turbopack/src/tp/circuits/offline.cc:132-149 | the sum of an input and an output on it comes out wrong |
| Schedules.Confluence | turbopack/experiments/ours.cc:84-162 | every run is a part of a complete run with the same end |
| Schedules.SomeMoves | turbopack/experiments/ours.cc:84-162 | as long as a party is not done some party can move |
| Schedules.DoneIsEmpty | turbopack/experiments/ours.cc:84-162 | at the end everything sent has been taken, on every channel |
| Schedules.ScheduleIndependence | turbopack/experiments/ours.cc:84-162 | no run gets stuck; all complete runs have the same length and end in the same state |
| Schedules.WiresCarried | turbopack/experiments/ours.cc:84-162 | parties that send w on the receipts of w make every complete run carry exactly w |
| TurboSchedules.TurboClosed | turbopack/src/tp/fi_prep.cc:221-291 | for every circuit the programs of TurboPack never take more than was sent, and leave nothing behind |
| TurboSchedules.AnySchedule | turbopack/experiments/ours.cc:84-162 | hence any two complete interleavings of TurboPack end alike, with all channels empty |
| TurboSchedules.SomeSchedule | turbopack/experiments/ours.cc:84-162 | and there is a complete one |
| TurboSchedules.DealtAgrees | turbopack/src/tp/fi_prep.cc:5-189 | the dealing stage sends as many messages as the parties deal sharings |
| TurboSchedules.PreparationAgrees | turbopack/src/tp/circuits/offline.cc:170-217 | so do the stages of the function-dependent phase |
| TurboSchedules.OnlineAgrees | turbopack/experiments/ours.cc:84-162 | and those of the online phase |
| TurboWires.WireLength | turbopack/experiments/ours.cc:84-162 | the messages of all phases, channel by channel, are as many as the programs send |
| TurboWires.HonestInterleaving | turbopack/experiments/ours.cc:84-162 | parties that send the messages of the lockstep run on its receipts, in any complete interleaving: every channel carries those messages, every party receives the same values, every client can compute its outputs |
| LocalViews.WireIsParts | turbopack/experiments/ours.cc:84-162 | every channel is its parts in order: dealt sharings, products, masks, inputs, both directions of every layer, outputs |
| LocalCuts.DueReached | turbopack/experiments/ours.cc:84-162 | when a message is due its sender has received everything it is computed from: whole parts, and for P1's relays the item to be relayed |
| LocalShares.MixGotIs | turbopack/src/tp/fi_prep.cc:24-45 | weighting what was received gives the share of the mixed sharing |
| LocalShares.OpenedIs | turbopack/src/tp/fi_prep.cc:234-269 | P1 computes what it returns for a product from the shares it has received |
| LocalShares.TripleIs | turbopack/src/tp/fi_prep.cc:69-118 | a party computes its share of every triple from its receipts |
| LocalMasks.WireShareIs | turbopack/src/tp/correlator.h:123-136 | and its share of the mask of every wire |
| LocalMasks.MaskMsgIs | turbopack/src/tp/correlator.cc:86-102 | and the masked shares of a batch that it sends to P1 |
| LocalMasks.ReshareMsgIs | turbopack/src/tp/correlator.cc:104-138 | P1 computes from them what it deals again |
| LocalMasks.OwnMaskIs | turbopack/src/tp/correlator.cc:22-44 | an owner computes the mask of each of its gates |
| LocalOnline.MuOfIs | turbopack/src/tp/gate.h:101-107 | before a layer P1 computes the masked value of every gate that the layer reaches, by recursion over the circuit |
| LocalOnline.ReplyMsgIs | turbopack/src/tp/mult_gate.cc:45-53 | a party computes its share of the products of a batch |
| LocalOnline.LocalOutputsAre | turbopack/src/tp/output_gate.h:98-104 | a client that has received everything computes its outputs |
| TurboLocal.LocalHonest | turbopack/experiments/ours.cc:84-162 | parties that compute every message from their own draws, their own inputs and what they have received so far send, on the receipts of the lockstep run, the messages of the lockstep run |
| TurboLocal.EveryInterleaving | turbopack/experiments/ours.cc:84-162 | hence in every complete interleaving of these parties every channel carries exactly the messages of the lockstep run, all are taken, and every client computes from its receipts the outputs of the run, which are its cleartext outputs if no addition reads an output gate |
| Dn07Sharing.ZeroedValue | turbopack/src/tp/dn07.cc:256-275 | the polynomial has the value at 0 and vanishes for the last t parties |
| Dn07Sharing.LastShareIs | turbopack/src/tp/dn07.cc:168-196 | what one of the last t parties fixes before there are inputs is a share of the wire, whatever the inputs are |
| Dn07Sharing.LastProductIs | turbopack/src/tp/dn07.cc:168-196 | and so is its early message for every product |
| Dn07Sharing.GateClear | turbopack/src/tp/dn07.cc:309-405 | with n = 2t + 1 every wire carries its cleartext value |
| Dn07Dealing.MixBlocksEqual | turbopack/src/tp/dn07.cc:124-140 | mixing keeps the two sharings of a pair equal at 0 |
| Dn07Dealing.PadsGood | turbopack/src/tp/dn07.cc:41-143 | for all randomness the mixed sharings have degrees t, t and 2t, and the pairs share one number |
| Dn07Randomness.RandNumbers | turbopack/src/tp/dn07.cc:41-143 | the random sharings have the combinations of what all parties drew as numbers and as shares |
| Dn07Randomness.PairNumbers | turbopack/src/tp/dn07.cc:41-143 | so do the pairs, with degrees t and 2t |
| Dn07Randomness.InputMaskedByAll | turbopack/src/tp/dn07.cc:256-275 | the owner of an input shows its value minus the combination drawn for it |
| Dn07Randomness.OpenedMaskedByAll | turbopack/src/tp/dn07.cc:309-405 | with n = 2t + 1 P1 opens the product of the parents' values minus the combination drawn for the gate |
| Dn07Parties.DN07.PrecomputeVandermonde | turbopack/src/tp/dn07.h:95-106 | row j holds the powers 0 to t of j |
| Dn07Parties.DN07.PrepPartiesSend | turbopack/src/tp/dn07.cc:41-81 | random sharings, then pairs, to everyone |
| Dn07Parties.DN07.PrepPartiesReceive | turbopack/src/tp/dn07.cc:83-143 | shares of the mixed sharings |
| Dn07Parties.DN07.FDMapPrepToGates | turbopack/src/tp/dn07.cc:145-166 | inputs and multiplications take them in order |
| Dn07Parties.DN07.FDMultPartiesSendP1 | turbopack/src/tp/dn07.cc:168-196 | the parties after the first t + 1 fix the shares of all wires and send P1 one number for every product, in gate order |
| Dn07Parties.DN07.FDMultP1Receives | turbopack/src/tp/dn07.cc:198-218 | P1 queues them gate by gate |
| Dn07Parties.DN07.SetInputs | turbopack/src/tp/dn07.cc:29-38 | refused exactly if the number of inputs is wrong |
| Dn07Parties.DN07.InputPartiesSendOwners | turbopack/src/tp/dn07.cc:222-234 | the first t + 1 parties open the random numbers to the owners |
| Dn07Parties.DN07.InputOwnersReceiveAndSendParties | turbopack/src/tp/dn07.cc:236-284 | every owner shares its value minus the random number |
| Dn07Parties.DN07.InputPartiesReceive | turbopack/src/tp/dn07.cc:286-307 | the first t + 1 parties hold shares of all inputs |
| Dn07Parties.DN07.GetDn07Share | turbopack/src/tp/gate.h:125-131 | the memoised share follows additions |
| Dn07Parties.DN07.MultPartiesSendP1 | turbopack/src/tp/dn07.cc:309-321 | masked products of the layer, to P1 |
| Dn07Parties.DN07.MultP1Receives | turbopack/src/tp/dn07.cc:323-371 | P1 pops the early messages in gate order, opens every product and queues shares of it |
| Dn07Parties.DN07.MultP1SendsParties | turbopack/src/tp/dn07.cc:373-386 | and returns them |
| Dn07Parties.DN07.MultPartiesReceive | turbopack/src/tp/dn07.cc:388-405 | shares of the products of the layer |
| Dn07Parties.DN07.OutputPartiesSendOwners | turbopack/src/tp/dn07.cc:407-420 | shares of the outputs, to their owners |
| Dn07Parties.DN07.OutputOwnersReceive | turbopack/src/tp/dn07.cc:422-442 | every owner opens what its output wires carry |
| Dn07Parties.ProductRebuilt | turbopack/src/tp/dn07.cc:323-352 | late shares followed by early ones are what P1 opens |
| Dn07.EarlyAll | turbopack/src/tp/dn07.cc:168-218 | all early messages are with P1 and every channel is empty, before there are inputs |
| Dn07.Execute | turbopack/experiments/dn07.cc:84-158 | for every accepted number of parties the run returns what the wires carry, and for n = 2t + 1 the cleartext outputs, for all circuits, inputs and randomness |
| Dn07Extra.ExtraRun | turbopack/src/tp/dn07.h:47-52 | for every t and n > 2t the product of 1 and t + 1 comes out as n - t for some randomness |
| Dn07Extra.ExactNumber | turbopack/src/tp/dn07.h:47-52 | of all accepted numbers of parties, exactly n = 2t + 1 gives the cleartext outputs for every circuit, all inputs and all randomness |
| Gfp.Constants | Shamir-secret-sharing-template/Math/gfpScalar.h:15-65 | the constants of the 31-bit branch are the powers of two, shifts and halves that the protocols rely on |
| Gfp.AddMod | Shamir-secret-sharing-template/Math/gfpScalar.h:187-193 | addition in a 32-bit word and one subtraction give the residue |
| Gfp.MultModIs | Shamir-secret-sharing-template/Math/gfpScalar.h:195-210 | the shifts and masks of the Mersenne product give the residue of the product |
| Gfp.ModPrimeIs | Shamir-secret-sharing-template/Math/gfpScalar.h:212-217 | so do those of the reduction, for every word |
| Gfp.AdditiveInverseIs | Shamir-secret-sharing-template/Math/gfpScalar.h:234-239 | exclusive or with p is negation |
| Gfp.ExtendGcd | Shamir-secret-sharing-template/Math/gfpScalar.h:219-231 | coefficients reduced modulo p still combine to the gcd |
| Gfp.MultiplicativeInverse | Shamir-secret-sharing-template/Math/gfpScalar.h:241-248 | the inverse, and 0 for 0 |
| Fermat.FermatUnit | Shamir-secret-sharing-template/Math/gfpScalar.h:389-399 | a^(p - 1) = 1 for a not divisible by p |
| Gfp.SqrtSquare | Shamir-secret-sharing-template/Math/gfpScalar.h:389-399 | the root of r^2 is r or p - r, whichever is at most (p - 1) / 2 |
| Gfp.SqrtExact | Shamir-secret-sharing-template/Math/gfpScalar.h:389-399 | the square of the root is x if and only if x is a square |
| GfpScalars.GfpScalar.Power | Shamir-secret-sharing-template/Math/gfpScalar.h:363-376 | square and multiply gives the power |
| GfpScalars.GfpScalar.Sqrt | Shamir-secret-sharing-template/Math/gfpScalar.h:389-399 | the root of positive sign, in place |
| GfpScalars.GfpScalar.Truncate | Shamir-secret-sharing-template/Math/gfpScalar.h:502-513 | shifts the magnitude, in place |
| GfpScalars.TruncSigned | Shamir-secret-sharing-template/Math/gfpScalar.h:502-513 | truncation rounds the signed value toward zero |
| GfpScalars.DecomposeBits | Shamir-secret-sharing-template/Math/gfpMatrix.h:272-286 | the bits of a number, least significant first |
| GfpScalars.NumberOfBits | Shamir-secret-sharing-template/Math/gfpMatrix.h:272-286 | they make up the number |
| GfpScalars.PrefixMult | Shamir-secret-sharing-template/Math/gfpMatrix.h:304-313 | all prefix products |
| GfpScalars.BatchInversion | Shamir-secret-sharing-template/Math/gfpMatrix.h:315-344 | inverts every entry of a row without zeros; a single zero makes every result 0 |
| Truncation.GenerateTruncatedRandom | Shamir-secret-sharing-template/Protocols/RandomShare.cpp:312-335 | a number, its arithmetic shift and its top bit from the same 31 bits |
| Truncation.Share.Truncate | Shamir-secret-sharing-template/Protocols/Share.cpp:505-519 | the protocol on the secret computes the specified truncation |
| Truncation.TruncationBound | Shamir-secret-sharing-template/Protocols/ShareBundle.cpp:417-436 | within 1 of floor(a / 2^12) for every a in [-2^29, 2^29 - 2^12] and every mask |
| Truncation.TruncationValue | Shamir-secret-sharing-template/Protocols/Share.cpp:505-519 | in that range the result is floor((a + r) / 2^12) - floor(r / 2^12), and floor((a + r + 1) / 2^12) - 1 - floor(r / 2^12) when the masked sum wraps around |
| Truncation.TruncationExact | Shamir-secret-sharing-template/Protocols/ShareBundle.cpp:417-436 | of all signed values, exactly those are truncated within 1 for every mask |
| BitProtocols.GenerateUnboundedRandom | Shamir-secret-sharing-template/Protocols/RandomShare.cpp:488-528 | pairs of b_i and b_{i-1} / b_i from two rows without zeros; a zero makes all ratios 0 |
| BitProtocols.UnboundedPrefixMult | Shamir-secret-sharing-template/Protocols/ShareBundle.cpp:1299-1319 | all prefix products in one round from such pairs |
| BitProtocols.UnboundedPostfixMult | Shamir-secret-sharing-template/Protocols/ShareBundle.cpp:1321-1335 | all postfix products |
| BitProtocols.PostfixOr | Shamir-secret-sharing-template/Protocols/Bit.cpp:394-408 | position i is 1 exactly if some entry from i on is |
| BitProtocols.BitwiseXor | Shamir-secret-sharing-template/Protocols/Bit.cpp:51-86 | exclusive or of rows of any lengths |
| BitProtocols.LessThanUnsigned | Shamir-secret-sharing-template/Protocols/Bit.cpp:152-231 | exactly a < b on bit rows of any lengths |
| Comparison.GenerateRandomBits | Shamir-secret-sharing-template/Protocols/RandomShare.cpp:86-120 | a bit for every nonzero number, its sign; a zero aborts |
| Comparison.GetLSB | Shamir-secret-sharing-template/Protocols/ShareBundle.cpp:1387-1430 | the parity of x, for every x and every mask, except that it is wrong exactly if x plus the mask is p |
| Comparison.GetMSB | Shamir-secret-sharing-template/Protocols/ShareBundle.cpp:1432-1437 | the sign of x exactly if 2x plus the mask is not p |
| Comparison.DeltaReLU | Shamir-secret-sharing-template/Protocols/ShareBundle.cpp:1439-1445 | its complement, under the same exact condition |
| Comparison.ReLU | Shamir-secret-sharing-template/Protocols/ShareBundle.cpp:1447-1453 | the signed maximum with 0, and what comes out instead when the mask is the excluded one |
| Maxpool.ArgMaxJoin | Shamir-secret-sharing-template/Protocols/ShareBundle.cpp:1638-1683 | the leftmost maximum of two adjacent blocks is decided by one comparison |
| Maxpool.SpreadOfSmall | Shamir-secret-sharing-template/Protocols/ShareBundle.cpp:1638-1683 | values of size at most (p - 1) / 4 can be compared by the sign of their difference |
| Maxpool.CompareColumns | Shamir-secret-sharing-template/Protocols/ShareBundle.cpp:1638-1683 | every left column against its right neighbour |
| Maxpool.PlayPair | Shamir-secret-sharing-template/Protocols/ShareBundle.cpp:1638-1683 | the winner, and the index row cleared in the losing half only |
| Maxpool.Round | Shamir-secret-sharing-template/Protocols/ShareBundle.cpp:1638-1683 | one level keeps the block invariant, with a partial right block |
| Maxpool.HierMaxpoolRowwise | Shamir-secret-sharing-template/Protocols/ShareBundle.cpp:1638-1683 | the recursion ends with the row's maximum and a one-hot index |
| Maxpool.MaxpoolRow | Shamir-secret-sharing-template/Protocols/ShareBundle.cpp:1638-1683 | called with an all-ones index it gives the maximum and a one-hot at the leftmost maximum, for every number of columns |
| Shamir.GetVandermonde | Shamir-secret-sharing-template/Protocols/Share.cpp:108-119 | entry (i, j) is (i + 1)^(j + 1) |
| Shamir.GetReconstructionFactor | Shamir-secret-sharing-template/Protocols/Share.cpp:173-186 | the Lagrange weight of one party |
| Shamir.GetReconstructionVector | Shamir-secret-sharing-template/Protocols/Share.cpp:203-213 | all of them |
| Shamir.GetReconstructionFactorWithSecret | Shamir-secret-sharing-template/Protocols/Share.cpp:232-246 | the weight when the secret at 0 is one of the points and a party is left out |
| Shamir.GetReconstructionVectorWithSecret | Shamir-secret-sharing-template/Protocols/Share.cpp:259-271 | all of them |
| Shamir.WeightsExact | Shamir-secret-sharing-template/Protocols/Share.cpp:173-271 | weighting the values of any polynomial of small degree gives its value at the point |
| Shamir.LocalProduct | Shamir-secret-sharing-template/Protocols/Share.cpp:480-498 | products of shares share the product with twice the degree |
| Shamir.MixIsSharing | Shamir-secret-sharing-template/Protocols/RandomShare.cpp:269-304 | linear combinations of sharings share the combination of the secrets |
| DegreeReduction.ShareBase.InitiateProtocol | Shamir-secret-sharing-template/Protocols/Share.cpp:47-153 | all tables are set up for n = 2t + 1 parties |
| DegreeReduction.ShareBase.CalculateSharing | Shamir-secret-sharing-template/Protocols/Share.cpp:297-305 | the shares are the values at 1, ..., n of the polynomial with the secret and the random coefficients, which is a sharing of the secret |
| DegreeReduction.ShareBase.CalculateSecret | Shamir-secret-sharing-template/Protocols/Share.cpp:316-326 | the weighted sum is the secret of any sharing of that degree |
| DegreeReduction.ShareBase.DistributeT | Shamir-secret-sharing-template/Protocols/Share.cpp:406-437 | the dealer's share and what it sends lie on the polynomial through the secret and the agreed values |
| DegreeReduction.ShareBase.Distribute2T | Shamir-secret-sharing-template/Protocols/Share.cpp:384-395 | the dealer's share of degree 2t, with nothing sent |
| DegreeReduction.ShareBase.InputFromRandomPRG | Shamir-secret-sharing-template/Protocols/Share.cpp:761-772 | all shares are the values of the two polynomials through the dealer's secret and the agreed values; the parties that the dealer need not write to hold agreed values; both are sharings of the secret, with degrees t and 2t |
| DegreeReduction.DoubleRandom.GenerateReducedRandomSharingsPRG | Shamir-secret-sharing-template/Protocols/RandomShare.cpp:269-304 | the new pair of matrix row i and draw j shares, with both degrees, the sum over dealers r of r^(i+1) times r's secret, and all its shares are the same sums of the dealt shares; earlier pairs stay in front |
| DegreeReduction.DoubleRandom.GetRandomPair | Shamir-secret-sharing-template/Protocols/RandomShare.cpp:163-170 | the front pair is taken, and the others keep their order and numbers |
| DegreeReduction.Share.ReduceDegree | Shamir-secret-sharing-template/Protocols/Share.cpp:480-498 | a sharing of degree 2t becomes one of degree t of the same secret: x plus the number of the front pair, less its shares of degree t |
| DegreeReduction.Share.Multiply | Shamir-secret-sharing-template/Protocols/Share.cpp:480-498 | multiplying and reducing shares the product, and the square when a share is multiplied by itself; the shares are exact as well |
| FirstLayer.ReduceDegreeFirstLayer | Shamir-secret-sharing-template/Protocols/ShareBundle.cpp:515-546 | x comes down to degree t, and the triple has x and y as its factors; its parts are the first pair in front, the negated shares of y, what is opened, and the product masked with the second pair |
| FirstLayer.TwoLayerProduct | Shamir-secret-sharing-template/Protocols/ShareBundle.cpp:512-546 | the second product then needs local steps only and has degree t |
| Beaver.BeaverTriple.XTimes | Shamir-secret-sharing-template/Protocols/BeaverTriper.h:33-42 | scaling the first factor keeps the triple and the second factor; the public part and the shares of a and c are scaled |
| Beaver.BeaverTriple.YTimes | Shamir-secret-sharing-template/Protocols/BeaverTriper.h:33-42 | the same for the second |
| Beaver.BeaverTriple.XPlus | Shamir-secret-sharing-template/Protocols/BeaverTriper.h:44-53 | shifting the first factor keeps the triple and the second factor, and changes only the public part |
| Beaver.BeaverTriple.YPlus | Shamir-secret-sharing-template/Protocols/BeaverTriper.h:44-53 | the same for the second |
| Beaver.BeaverTriple.Mult | Shamir-secret-sharing-template/Protocols/BeaverTriper.h:85-91 | u v - u b - v a + c, share by share, is a sharing of the product of the factors, of the same degree |

## Left out

- Sockets, threads, timers, serialization, file input, printing and the benchmark programs. Channels carry field elements in order.
- Pseudorandom generators: what they would produce is an argument. Privacy and uniformity of shares are not stated.
- The library under TurboPack (`scl/ss`) is not part of this model; `Scl` writes its sharing and reconstruction functions out from their use, with shares at 1, ..., n and packed secrets at 0, -1, ..., -(k - 1), and points as integers that are reduced when used.
- Primality of the three moduli is a hypothesis.
- Fft.FirstStage: the last call of the counter in the first pass, whose result nobody reads and which leaves the range, is not made.
- PackedSS.OptimizedPSS.constructor: asks for 1 <= l <= d < n and for d + 1 points in the half group, which the code uses without a test.
- PackedSS.OptimizedPSS.RecoverSS: asks for l + d + 1 points in the half group, because the code reads outside the vector otherwise; see the findings.
- PackedSS.OptimizedPSS.PtToCoeff: the vector that the code moves from is only read here.
- NaivePSS.PackedSecretShare.SecretShareValues: missing secrets are zeros, as in the code; the fast scheme takes random values in their place.
- NaivePSS.HIM.InitHIMByVectors: the exit on wrong sizes is a false result.
- The unused partial transform and the list of all roots of the fast scheme.
- Clients are the parties, one each; client counts that differ from the number of parties are not modelled.
- TurboPack.Execute: asks for n + k <= 2^61 - 1, so that the points are distinct.
- TurboPack.Execute: runs the phases in lockstep, party by party. The interleavings of the sequential branch are covered by the schedule results; a party's state there is its program position and what it has received. The branch with threads inside a party is left out.
- TurboLocal.EveryInterleaving: parties are functions of their own draws, inputs and receipts, written out beside the methods of `Correlators` and `Parties`; the methods themselves are run in lockstep.
- Correlators.Correlator.PrepIOPartiesSendOwner: input and output batches are one kind of batch here; the two pairs of functions differ in their types only.
- The preparation of batches runs over one list of all batches, in the order of the nested loops over clients or layers and batches.
- Building.Circuit.Mult: not after the last layer has been closed; inputs and outputs are not added after their layers have been closed.
- Counts and sizes are natural numbers, without the wrap-around of `size_t`.
- A default field element, which the map of shares gives for a missing gate, is 0.
- Padding gates are one shared member with value, masked value and mask 0.
- Dummy preprocessing, which the protocols do not use.
- Scalars of `Math/gfpScalar.h` other than the 31-bit branch, floating-point encodings, and the tables of constants.
- Truncation.Share.Truncate: acts on the secret; so do the comparison, bit and tournament protocols. That shares carry their secrets through products and linear steps is proved for `DegreeReduction`, `Beaver` and `FirstLayer`.
- Bundles are rows: one row of the source's matrices at a time.
- DegreeReduction.ShareBase.InitiateProtocol: asks for n = 2t + 1, and the king is the first party, as the code fixes it.
- Maxpool.MaxpoolRow: row lengths up to 2^30, where the code's shifts of int are exact, values whose differences keep their sign, and masks other than the excluded ones.
- The optimised tournament, truncation with variable precision, bundles with several precisions, and combined reduction and truncation.
- Dispersed opening and sharing of bundles, which open and share the same numbers through several parties.
