/** The exploration nodes of ip_adapter_utils/random_rotate.py:
    `small_random_rotation`, `random_rotate_embeds`,
    `IPAdapterRandomRotateEmbeds.run` and `SaveExplorationState.run`. */
module RandomRotate {
  import opened Wrappers
  import opened LinAlg
  import opened Concatenation

  /** An embeddings tensor such as `[1, 1, 1280]`: its leading (batch) axis,
      then its middle axes flattened into `rows`, then vectors of length `dim`
      along the last axis, the one the rotation acts on. */
  datatype EmbedsGrid = EmbedsGrid(dim: nat, rows: nat, data: seq<seq<Vector>>)
  {
    predicate WellShaped() {
      forall s :: 0 <= s < |data| ==>
        |data[s]| == rows && forall t :: 0 <= t < rows ==> |data[s][t]| == dim
    }
  }

  /** A tensor whose data has the shape its sizes announce. */
  type Embeds = e: EmbedsGrid | e.WellShaped() witness EmbedsGrid(0, 0, [])

  /** `latent["samples"]`: a batch of latent slices of any kind. */
  datatype Latent<L> = Latent(samples: seq<L>)

  /** What an exploration state file holds. */
  datatype ExplorationState = ExplorationState(sampleEmbed: Embeds)

  /** The state files on disk, by file name: a name is a key exactly when
      `os.path.exists` holds for it. */
  type StateFiles = map<string, ExplorationState>

  datatype NodeError =
    | EmptyConcat              // `torch.cat([])` when `num_samples` is 0
    | LatentBatchSize(got: nat) // the assertion on the latent batch size

  // ---------------------------------------------------------------------------
  // small_random_rotation
  // ---------------------------------------------------------------------------

  /** The k-th `torch.randn((dim, dim))`, entry (i, j) being `draw(k, i, j)`.
      The random generator is reseeded from the clock on every call, so each
      sample has its own draw; the model takes the draws as given. */
  function NormalDraw(draw: (nat, nat, nat) -> real, k: nat, dim: nat): (m: Matrix)
    ensures IsSquare(m, dim)
  {
    seq(dim, i requires 0 <= i < dim => seq(dim, j requires 0 <= j < dim => draw(k, i, j)))
  }

  /** `R = I + epsilon * (M - M.t()) / 2` for the drawn matrix `M`. */
  function RotationMatrix(m: Matrix, dim: nat, eps: real): (r: Matrix)
    requires IsSquare(m, dim)
    ensures IsSquare(r, dim)
  {
    NearIdentity(SkewPart(m, dim), dim, eps)
  }

  /** `small_random_rotation(x, epsilon)` once `M` has been drawn: every
      vector along the last axis multiplied by `R`. */
  function SmallRandomRotation(x: Embeds, eps: real, m: Matrix): (r: Embeds)
    requires IsSquare(m, x.dim)
    ensures r.dim == x.dim && r.rows == x.rows && |r.data| == |x.data|
    ensures forall s, t :: 0 <= s < |x.data| && 0 <= t < x.rows ==>
      r.data[s][t] == VecMat(x.data[s][t], RotationMatrix(m, x.dim, eps))
  {
    EmbedsGrid(x.dim, x.rows,
      seq(|x.data|, s requires 0 <= s < |x.data| =>
        seq(x.rows, t requires 0 <= t < x.rows => VecMat(x.data[s][t], RotationMatrix(m, x.dim, eps)))))
  }

  /** Each rotated vector keeps its projection on the original (`v·w = |v|²`)
      and grows in squared length only by `eps² |v A|²`, `A` the skew part of
      the draw; with `epsilon = 0` the rotation returns `x` unchanged. */
  lemma SmallRandomRotationNearRotation(x: Embeds, eps: real, m: Matrix)
    requires IsSquare(m, x.dim)
    ensures forall s, t :: 0 <= s < |x.data| && 0 <= t < x.rows ==>
      Dot(x.data[s][t], SmallRandomRotation(x, eps, m).data[s][t]) == Dot(x.data[s][t], x.data[s][t])
    ensures forall s, t :: 0 <= s < |x.data| && 0 <= t < x.rows ==>
      Dot(SmallRandomRotation(x, eps, m).data[s][t], SmallRandomRotation(x, eps, m).data[s][t])
        == Dot(x.data[s][t], x.data[s][t])
           + eps * eps * Dot(VecMat(x.data[s][t], SkewPart(m, x.dim)), VecMat(x.data[s][t], SkewPart(m, x.dim)))
    ensures eps == 0.0 ==> SmallRandomRotation(x, eps, m) == x
  {
    SkewPartIsSkew(m, x.dim);
    forall s, t | 0 <= s < |x.data| && 0 <= t < x.rows
      ensures SmallRandomRotation(x, eps, m).data[s][t] == VecMat(x.data[s][t], NearIdentity(SkewPart(m, x.dim), x.dim, eps))
      ensures Dot(x.data[s][t], SmallRandomRotation(x, eps, m).data[s][t]) == Dot(x.data[s][t], x.data[s][t])
      ensures Dot(SmallRandomRotation(x, eps, m).data[s][t], SmallRandomRotation(x, eps, m).data[s][t])
        == Dot(x.data[s][t], x.data[s][t])
           + eps * eps * Dot(VecMat(x.data[s][t], SkewPart(m, x.dim)), VecMat(x.data[s][t], SkewPart(m, x.dim)))
      ensures eps == 0.0 ==> SmallRandomRotation(x, eps, m).data[s][t] == x.data[s][t]
    {
      NearRotation(x.data[s][t], SkewPart(m, x.dim), eps);
    }
    if eps == 0.0 {
      forall s | 0 <= s < |x.data|
        ensures SmallRandomRotation(x, eps, m).data[s] == x.data[s]
      {
      }
    }
  }

  // ---------------------------------------------------------------------------
  // random_rotate_embeds
  // ---------------------------------------------------------------------------

  /** The `num_samples` rotated copies `random_rotate_embeds` concatenates. */
  function RotatedCopies(x: Embeds, eps: real, numSamples: nat, draw: (nat, nat, nat) -> real): (parts: seq<seq<seq<Vector>>>)
    ensures |parts| == numSamples
    ensures forall k :: 0 <= k < numSamples ==> parts[k] == SmallRandomRotation(x, eps, NormalDraw(draw, k, x.dim)).data
  {
    seq(numSamples, k requires 0 <= k < numSamples => SmallRandomRotation(x, eps, NormalDraw(draw, k, x.dim)).data)
  }

  /** Every rotated copy has the shape of `x`. */
  lemma RotatedCopiesShape(x: Embeds, eps: real, numSamples: nat, draw: (nat, nat, nat) -> real)
    ensures forall k :: 0 <= k < numSamples ==>
      |RotatedCopies(x, eps, numSamples, draw)[k]| == |x.data| &&
      EmbedsGrid(x.dim, x.rows, RotatedCopies(x, eps, numSamples, draw)[k]).WellShaped()
  {
    forall k | 0 <= k < numSamples
      ensures |RotatedCopies(x, eps, numSamples, draw)[k]| == |x.data|
      ensures EmbedsGrid(x.dim, x.rows, RotatedCopies(x, eps, numSamples, draw)[k]).WellShaped()
    {
      assert EmbedsGrid(x.dim, x.rows, RotatedCopies(x, eps, numSamples, draw)[k])
        == SmallRandomRotation(x, eps, NormalDraw(draw, k, x.dim));
    }
  }

  /** `random_rotate_embeds`: `num_samples` independently rotated copies of
      `x`, concatenated along the leading axis. An empty list of copies makes
      `torch.cat` raise. */
  function RandomRotateEmbeds(x: Embeds, eps: real, numSamples: nat, draw: (nat, nat, nat) -> real)
    : (r: Result<Embeds, NodeError>)
    ensures r.Err? <==> numSamples == 0
    ensures r.Err? ==> r.error == EmptyConcat
    ensures r.Ok? ==> r.value.dim == x.dim && r.value.rows == x.rows
    ensures r.Ok? ==> |r.value.data| == numSamples * |x.data|
    ensures r.Ok? ==> r.value.data == Concat(RotatedCopies(x, eps, numSamples, draw))
  {
    if numSamples == 0 then
      Err(EmptyConcat)
    else
      RotatedCopiesShape(x, eps, numSamples, draw);
      ConcatLength(RotatedCopies(x, eps, numSamples, draw), |x.data|);
      ConcatShape(RotatedCopies(x, eps, numSamples, draw), x.dim, x.rows);
      Ok(EmbedsGrid(x.dim, x.rows, Concat(RotatedCopies(x, eps, numSamples, draw))))
  }

  /** Slice `t` of block `k` of the output is slice `t` of `x` rotated by the
      `k`-th draw: the output is `num_samples` perturbed copies of `x`, in order. */
  lemma RandomRotateEmbedsBlock(x: Embeds, eps: real, numSamples: nat, draw: (nat, nat, nat) -> real, k: nat, t: nat)
    requires k < numSamples && t < |x.data|
    ensures RandomRotateEmbeds(x, eps, numSamples, draw).Ok?
    ensures k * |x.data| + t < |RandomRotateEmbeds(x, eps, numSamples, draw).value.data|
    ensures RandomRotateEmbeds(x, eps, numSamples, draw).value.data[k * |x.data| + t]
      == SmallRandomRotation(x, eps, NormalDraw(draw, k, x.dim)).data[t]
  {
    RotatedCopiesShape(x, eps, numSamples, draw);
    ConcatAt(RotatedCopies(x, eps, numSamples, draw), |x.data|, k, t);
  }

  /** With no noise every block is an exact copy of `x`. */
  lemma RandomRotateEmbedsNoNoise(x: Embeds, numSamples: nat, draw: (nat, nat, nat) -> real, k: nat, t: nat)
    requires k < numSamples && t < |x.data|
    ensures RandomRotateEmbeds(x, 0.0, numSamples, draw).Ok?
    ensures k * |x.data| + t < |RandomRotateEmbeds(x, 0.0, numSamples, draw).value.data|
    ensures RandomRotateEmbeds(x, 0.0, numSamples, draw).value.data[k * |x.data| + t] == x.data[t]
  {
    RandomRotateEmbedsBlock(x, 0.0, numSamples, draw, k, t);
    SmallRandomRotationNearRotation(x, 0.0, NormalDraw(draw, k, x.dim));
  }

  /** Concatenating well-shaped parts gives a well-shaped tensor. */
  lemma ConcatShape(parts: seq<seq<seq<Vector>>>, dim: nat, rows: nat)
    requires forall k :: 0 <= k < |parts| ==> EmbedsGrid(dim, rows, parts[k]).WellShaped()
    ensures EmbedsGrid(dim, rows, Concat(parts)).WellShaped()
  {
    forall i | 0 <= i < |Concat(parts)|
      ensures |Concat(parts)[i]| == rows && forall t :: 0 <= t < rows ==> |Concat(parts)[i][t]| == dim
    {
      ConcatSlices(parts, i);
    }
  }

  // ---------------------------------------------------------------------------
  // IPAdapterRandomRotateEmbeds.run and SaveExplorationState.run
  // ---------------------------------------------------------------------------

  /** `n` references to the same tensor, as the list comprehension builds them. */
  function Copies<L>(s: seq<L>, n: nat): (r: seq<seq<L>>)
    ensures |r| == n && forall k :: 0 <= k < n ==> r[k] == s
  {
    seq(n, _ => s)
  }

  /** Concatenating `n` copies of a one-slice batch repeats that slice `n` times. */
  lemma ReplicateSingle<L>(s: seq<L>, n: nat)
    requires |s| == 1
    ensures |Concat(Copies(s, n))| == n
    ensures forall k :: 0 <= k < n ==> Concat(Copies(s, n))[k] == s[0]
  {
    ConcatLength(Copies(s, n), 1);
    forall k | 0 <= k < n
      ensures Concat(Copies(s, n))[k] == s[0]
    {
      ConcatAt(Copies(s, n), 1, k, 0);
    }
  }

  /** `IPAdapterRandomRotateEmbeds.run`: perturb the stored embedding when the
      state file exists (else `pos_embed`) into `num_samples` copies, then
      repeat the single latent `num_samples` times. The seed is only printed. */
  function Run<L>(files: StateFiles, posEmbed: Embeds, latent: Latent<L>, seed: int, numSamples: nat,
                  noiseScale: real, filename: string, draw: (nat, nat, nat) -> real)
    : (r: Result<(Embeds, Latent<L>), NodeError>)
    ensures r.Ok? <==> numSamples >= 1 && |latent.samples| == 1
    ensures numSamples == 0 ==> r == Err(EmptyConcat)
    ensures numSamples >= 1 && |latent.samples| != 1 ==> r == Err(LatentBatchSize(|latent.samples|))
    ensures r.Ok? && filename in files ==>
      Ok(r.value.0) == RandomRotateEmbeds(files[filename].sampleEmbed, noiseScale, numSamples, draw)
    ensures r.Ok? && filename !in files ==>
      Ok(r.value.0) == RandomRotateEmbeds(posEmbed, noiseScale, numSamples, draw)
    ensures r.Ok? ==> |r.value.1.samples| == numSamples
    ensures r.Ok? ==> forall k :: 0 <= k < numSamples ==> r.value.1.samples[k] == latent.samples[0]
  {
    var source := if filename in files then files[filename].sampleEmbed else posEmbed;
    match RandomRotateEmbeds(source, noiseScale, numSamples, draw)
    case Err(e) => Err(e)
    case Ok(newPosEmbeds) =>
      if |latent.samples| != 1 then
        Err(LatentBatchSize(|latent.samples|))
      else
        ReplicateSingle(latent.samples, numSamples);
        Ok((newPosEmbeds, Latent(Concat(Copies(latent.samples, numSamples)))))
  }

  /** The seed input has no effect on either output or on failure. */
  lemma RunIgnoresSeed<L>(files: StateFiles, posEmbed: Embeds, latent: Latent<L>, seed: int, seed': int,
                          numSamples: nat, noiseScale: real, filename: string, draw: (nat, nat, nat) -> real)
    ensures Run(files, posEmbed, latent, seed, numSamples, noiseScale, filename, draw)
         == Run(files, posEmbed, latent, seed', numSamples, noiseScale, filename, draw)
  {
  }

  /** `SaveExplorationState.run`: writes a state holding `pos_embed` under
      `filename`, leaves every other file alone and returns `filename`. */
  function SaveExplorationState(files: StateFiles, posEmbed: Embeds, filename: string)
    : (r: (string, StateFiles))
    ensures r.0 == filename
    ensures r.1.Keys == files.Keys + {filename}
    ensures r.1[filename].sampleEmbed == posEmbed
    ensures forall other :: other in files && other != filename ==> r.1[other] == files[other]
  {
    (filename, files[filename := ExplorationState(posEmbed)])
  }

  /** A run reading the file just saved perturbs the saved embedding, whatever
      `pos_embed` it is given. */
  lemma RunAfterSave<L>(files: StateFiles, saved: Embeds, posEmbed: Embeds, latent: Latent<L>, seed: int,
                        numSamples: nat, noiseScale: real, filename: string, draw: (nat, nat, nat) -> real)
    requires numSamples >= 1 && |latent.samples| == 1
    ensures Run(SaveExplorationState(files, saved, filename).1, posEmbed, latent, seed,
                numSamples, noiseScale, filename, draw).Ok?
    ensures Ok(Run(SaveExplorationState(files, saved, filename).1, posEmbed, latent, seed,
                   numSamples, noiseScale, filename, draw).value.0)
         == RandomRotateEmbeds(saved, noiseScale, numSamples, draw)
  {
  }

  /** Saving a state under another name does not change what a run reads. */
  lemma RunAfterUnrelatedSave<L>(files: StateFiles, saved: Embeds, other: string, posEmbed: Embeds,
                                 latent: Latent<L>, seed: int, numSamples: nat, noiseScale: real,
                                 filename: string, draw: (nat, nat, nat) -> real)
    requires other != filename
    ensures Run(SaveExplorationState(files, saved, other).1, posEmbed, latent, seed,
                numSamples, noiseScale, filename, draw)
         == Run(files, posEmbed, latent, seed, numSamples, noiseScale, filename, draw)
  {
  }
}
