# eden_comfy_pipelines — image padding, saving and embedding exploration in Dafny

This project models, in Dafny, the computational core of a set of ComfyUI
custom nodes:

- **`IMG_padder.pad`** adds a border to a batch of images. The border is
  `int(n * pad_fraction)` rows (bottom, top) or columns (left, right). Every
  cell of it holds the mean of the strip of the last or first four rows or
  columns along that edge (the whole image along that axis when it is
  shorter than four pixels).
- **`IMG_unpadder.unpad`** crops the same edge. It keeps `int(h * (1 - f))`
  rows or columns at the bottom or right, or drops the first `int(n * f)` at
  the top or left. It then trims height and width down to multiples of four.
- **`SaveImageAdvanced.save_images`** gives each image of a batch a file name.
  The name is `{prefix}_{timestamp}_{counter:05}.png`, or
  `{prefix}_{counter:05}_.png` without the timestamp. The counter goes up by
  one per image, and the node returns one `{filename, subfolder, type}`
  record per image.
- **`small_random_rotation`** multiplies every vector along the last axis by
  `R = I + eps * (M - Mᵀ) / 2`, where `M` is a freshly drawn standard-normal
  matrix.
- **`random_rotate_embeds`** concatenates `num_samples` such rotated copies
  of an embedding.
- **`IPAdapterRandomRotateEmbeds.run`** perturbs either the embedding stored
  in an exploration-state file, when the file exists, or the given
  `pos_embed`. It requires a latent batch of exactly one and repeats that
  latent `num_samples` times.
- **`SaveExplorationState.run`** stores an embedding under a file name and
  returns the name.

Layout:

| file | module | contents |
|---|---|---|
| `wrappers.dfy` | `Wrappers` | `Result` and `Option` |
| `images.dfy` | `Images` | batch × height × width × channel tensors; slicing (`Rows`, `Cols`), `torch.cat` along height and width (`CatRows`, `CatCols`), `torch.ones * v` (`Filled`); the predicates `Embedded` (one image is a window of another) and `ConstantOutside` |
| `img_nodes.dfy` | `ImgNodes` | `Pad`, `Unpad` and their lemmas; file naming and the `SaveImages` loop |
| `decimal.dfy` | `Decimal` | `{n:05}` formatting and its inverse |
| `linalg.dfy` | `LinAlg` | real vectors and matrices; the skew part, `I + eps A`, the row-vector product, dot products |
| `concatenation.dfy` | `Concatenation` | `torch.cat` along the leading axis, on sequences |
| `random_rotate.dfy` | `RandomRotate` | `SmallRandomRotation`, `RandomRotateEmbeds`, `Run`, `SaveExplorationState`, state files |

The pure parts (`pad`, `unpad`, the rotation, the `run` methods) are
functions with lemmas. The loop of `save_images` is a method with loop
invariants. The random draws, the clock-derived timestamp, and the values
`folder_paths.get_save_image_path` returns (prefix, first counter,
subfolder) are parameters. The state-file directory is a map from file
name to stored state.

## Model

| member | source | states |
|---|---|---|
| ImgNodes.FloorMul | img_utils/img_nodes.py:202 | `int(n * f)` for `f >= 0` is the integer `p` with `p <= n*f < p + 1` |
| ImgNodes.ParseLocation | img_utils/img_nodes.py:201-220 | each of "bottom", "top", "left", "right" selects its own branch, and a string selects no branch exactly when it is none of the four |
| ImgNodes.ParseName | img_utils/img_nodes.py:201-216 | every recognised edge is selected by its own name |
| ImgNodes.EdgeStrip | img_utils/img_nodes.py:198-219 | the strip averaged for the border colour is the last or first `min(4, n)` rows or columns of the image, as a window at the padded edge |
| ImgNodes.Pad | img_utils/img_nodes.py:194-222 | batch and channels kept; height or width grows by exactly `int(n * f)`; the original image is a window of the result (shifted down or right by the border for top and left); every cell outside that window equals the mean of the edge strip; an unrecognised location returns the image unchanged |
| ImgNodes.Crop | img_utils/img_nodes.py:246-253 | the location crop keeps `int(h*(1-f))` rows (bottom), all but the first `int(h*f)` rows (top), and likewise for columns (right, left); the kept part is the window of the input at the dropped offset |
| ImgNodes.DownTo4 | img_utils/img_nodes.py:258-259 | `n - n % 4` is a multiple of four within four below `n` |
| ImgNodes.TrimTo4 | img_utils/img_nodes.py:255-260 | the trim keeps the top-left window whose height and width are the multiples of four just below the input's |
| ImgNodes.Unpad | img_utils/img_nodes.py:242-262 | batch and channels kept; height and width divisible by four; never larger than the input; within four of what the location crop keeps; the result is the window of the input at offset `int(h*f)` rows (top), `int(w*f)` columns (left), or the top-left corner otherwise |
| ImgNodes.CropKeepsAll | img_utils/img_nodes.py:246-253 | with fraction 0, or an unrecognised location, the crop keeps every row and column |
| ImgNodes.UnpadOnlyTrims | img_utils/img_nodes.py:242-262 | with fraction 0, or an unrecognised location, `unpad` only trims to `h - h % 4` by `w - w % 4`, keeping the top-left corner |
| ImgNodes.UnpadAlignedIdentity | img_utils/img_nodes.py:255-260 | on an image whose sides are already multiples of four, a trimming-only `unpad` returns it unchanged |
| ImgNodes.UnpadIdempotent | img_utils/img_nodes.py:242-262 | a second `unpad` with fraction 0 after any `unpad` changes nothing |
| ImgNodes.PadCropWindow | img_utils/img_nodes.py:202-253 | after padding `n` by `int(n*f)`, the rows or columns `unpad` keeps with the same `f` and edge lie inside the original image's window |
| ImgNodes.UnpadAfterPadKeepsOriginal | img_utils/img_nodes.py:194-262 | `unpad` after `pad` with the same fraction and edge returns a window of the original image: no border pixel survives |
| ImgNodes.FileName | img_utils/img_nodes.py:128-131 | a file name starts with the prefix, ends in `.png` and holds at least the five counter digits |
| ImgNodes.CounterOfFileName | img_utils/img_nodes.py:128-131 | the counter can be read back from the file name it was formatted into |
| ImgNodes.FileNameInjective | img_utils/img_nodes.py:128-145 | within one call, different counters give different file names |
| ImgNodes.DistinctFileNames | img_utils/img_nodes.py:128-145 | records named with consecutive counters never share a file name |
| ImgNodes.SaveImages | img_utils/img_nodes.py:106-147 | an empty batch fails (`images[0]`); otherwise one record per image, the k-th named with counter `start + k` in the chosen format, the subfolder given and type "output", and no two records share a file name |
| Decimal.ZeroPadded | img_utils/img_nodes.py:129 | `{n:05}` is all digits, exactly `max(5, len(str(n)))` characters long |
| Decimal.ValueOfZeroPadded | img_utils/img_nodes.py:129 | reading the zero-padded digits back gives `n` for every width |
| Decimal.ZeroPaddedInjective | img_utils/img_nodes.py:129 | different counters are formatted differently |
| Images.Rows | img_utils/img_nodes.py:247-249 | `x[:, lo:hi]` has `hi - lo` rows and is the window of `x` at row `lo` |
| Images.Cols | img_utils/img_nodes.py:251-253 | `x[:, :, lo:hi]` has `hi - lo` columns and is the window of `x` at column `lo` |
| Images.CatRows | img_utils/img_nodes.py:205 | `torch.cat((x, y), dim=1)` has the rows of both, `x` at the top and `y` below it |
| Images.CatCols | img_utils/img_nodes.py:215 | `torch.cat((x, y), dim=2)` has the columns of both, `x` on the left and `y` to its right |
| Images.Filled | img_utils/img_nodes.py:202-204 | `torch.ones(shape) * v` has the given shape and holds `v` everywhere |
| LinAlg.Identity | ip_adapter_utils/random_rotate.py:20 | `torch.eye(n)` is `n` × `n`, with ones on the diagonal and zeros elsewhere |
| LinAlg.Transpose | ip_adapter_utils/random_rotate.py:16 | entry (i, j) of `A.t()` is entry (j, i) of `A` |
| LinAlg.SkewPart | ip_adapter_utils/random_rotate.py:16 | `(A - A.t()) / 2` is `n` × `n`, entry (i, j) being half of `A[i][j]` minus entry (i, j) of the transpose |
| LinAlg.SkewPartIsSkew | ip_adapter_utils/random_rotate.py:14-16 | `(A - A.t()) / 2` is skew-symmetric, with a zero diagonal, whatever `A` is drawn |
| LinAlg.NearIdentity | ip_adapter_utils/random_rotate.py:21 | `I + epsilon * A` is `n` × `n`, entry (i, j) being the identity's entry plus `epsilon` times `A[i][j]` |
| LinAlg.VecMat | ip_adapter_utils/random_rotate.py:24 | `torch.matmul(v, m)` keeps the length of `v`, and entry `j` is Σᵢ `v[i]·m[i][j]` |
| LinAlg.VecMatIdentity | ip_adapter_utils/random_rotate.py:20-24 | multiplying by `torch.eye(dim)` changes nothing |
| LinAlg.VecMatNearIdentity | ip_adapter_utils/random_rotate.py:18-24 | `v (I + eps A) = v + eps (v A)` |
| LinAlg.SkewOrthogonal | ip_adapter_utils/random_rotate.py:14-24 | for skew-symmetric `A`, `v A` is orthogonal to `v` |
| LinAlg.NearRotation | ip_adapter_utils/random_rotate.py:14-24 | `w = v (I + eps A)` keeps `v·w = |v|²`, and `|w|² = |v|² + eps² |v A|²`: a rotation to first order; with `eps = 0`, `w = v` |
| RandomRotate.NormalDraw | ip_adapter_utils/random_rotate.py:11-15 | the k-th call's `randn((dim, dim))` is a `dim` × `dim` matrix of the draws for that call |
| RandomRotate.RotationMatrix | ip_adapter_utils/random_rotate.py:14-21 | `R = I + eps (M - M.t()) / 2` is `dim` × `dim` |
| RandomRotate.SmallRandomRotation | ip_adapter_utils/random_rotate.py:6-25 | the shape is kept, and every vector along the last axis is replaced by that vector times `R` |
| RandomRotate.SmallRandomRotationNearRotation | ip_adapter_utils/random_rotate.py:14-24 | every rotated vector keeps its projection on the original and grows in squared length only by `eps²` times a fixed amount; with `eps = 0` the embedding is returned unchanged |
| Concatenation.Concat | ip_adapter_utils/random_rotate.py:32-40 | `torch.cat` along the leading axis of a single part is that part (its index and length facts are the three lemmas below) |
| Concatenation.ConcatLength | ip_adapter_utils/random_rotate.py:32-40 | concatenating `n` parts of `m` slices gives `n * m` slices |
| Concatenation.ConcatAt | ip_adapter_utils/random_rotate.py:32-40 | slice `t` of part `k` lands at position `k * m + t` |
| Concatenation.ConcatSlices | ip_adapter_utils/random_rotate.py:32-40 | every slice of a concatenation is a slice of one of the parts |
| RandomRotate.RotatedCopies | ip_adapter_utils/random_rotate.py:33-39 | the comprehension yields `num_samples` copies, the k-th being the input rotated by the k-th draw |
| RandomRotate.RandomRotateEmbeds | ip_adapter_utils/random_rotate.py:27-41 | fails (empty `torch.cat`) exactly when `num_samples` is 0; otherwise keeps the vector length and row count, has `num_samples` times the leading size, and is the concatenation of the `num_samples` rotated copies |
| RandomRotate.RandomRotateEmbedsBlock | ip_adapter_utils/random_rotate.py:27-41 | slice `t` of block `k` of the output is slice `t` of the input rotated by the k-th draw |
| RandomRotate.RandomRotateEmbedsNoNoise | ip_adapter_utils/random_rotate.py:27-41 | with noise scale 0 every block is an exact copy of the input |
| RandomRotate.Copies | ip_adapter_utils/random_rotate.py:98-101 | the comprehension yields `n` references to the same latent tensor |
| RandomRotate.ReplicateSingle | ip_adapter_utils/random_rotate.py:96-103 | concatenating `n` copies of a one-latent batch gives `n` latents, each that latent |
| RandomRotate.Run | ip_adapter_utils/random_rotate.py:63-108 | succeeds exactly when `num_samples >= 1` and the latent batch is 1; a batch of any other size gives the batch-size error; the embeddings come from the stored state when the file exists and from `pos_embed` otherwise; the latent is repeated `num_samples` times |
| RandomRotate.RunIgnoresSeed | ip_adapter_utils/random_rotate.py:63-72 | two runs that differ only in the seed give the same result |
| RandomRotate.SaveExplorationState | ip_adapter_utils/random_rotate.py:127-139 | returns the file name unchanged; the file now holds the embedding, and every other file is unchanged |
| RandomRotate.RunAfterSave | ip_adapter_utils/random_rotate.py:73-82 | a run reading the file just saved perturbs the saved embedding, whatever `pos_embed` it is given |
| RandomRotate.RunAfterUnrelatedSave | ip_adapter_utils/random_rotate.py:73-89 | saving a state under another name does not change what a run computes |

## Left out

- Floating point: fractions and pixels are exact reals. In IEEE doubles `1 - 0.8` is `0.19999999999999996`, so `int(10 * (1 - 0.8))` is 1 in the source and 2 here (unpad at the bottom or right, img_utils/img_nodes.py:247, 253); likewise `int(100 * 0.29)` is 28 in doubles against an exact 29 (unpad at the top or left, lines 249, 251). The model does not capture such one-row differences.
- ImgNodes.Pad: requires `pad_fraction >= 0`, the declared input minimum. In the source a fraction with `int(n*f) <= -1` makes `torch.ones` fail, and a smaller negative fraction adds nothing (`int` truncates toward zero); with an unrecognised location neither matters. Neither negative case is modelled.
- ImgNodes.Unpad: requires `0 <= unpad_fraction <= 1`, the declared input range; above 1, Python's negative-index slicing would apply and is not modelled.
- ImgNodes.Pad: the border colour is `mean` of the edge strip for an arbitrary function `mean`; the floating-point average over an empty strip (NaN) is not modelled.
- ImgNodes.SaveImages: returns only the records. The `{"ui": {"images": ...}}` wrapper, pixel scaling and clipping to `uint8`, PNG encoding, PNG metadata, the JSON side files and `prefix_append` (always empty) are not modelled. The counter is an unbounded natural. Failures of `Image.fromarray` (channel counts PIL cannot map, such as 1) and of the file writes at img_utils/img_nodes.py:133 and :142 are not modelled: the model returns records where the source raises, so `r.Err?` covers only the empty batch.
- `folder_paths.get_save_image_path` and `time.strftime` are not part of this model; their results are parameters.
- RandomRotate.SmallRandomRotation: the cast to `float` and back to the input dtype is not modelled; arithmetic is exact.
- Random draws: `torch.manual_seed(int(time.time() * 1e6) % 2**32)` and `torch.randn` become the parameter `draw(k, i, j)`, the (i, j) entry of the k-th call's matrix. Two calls in the same microsecond would draw the same matrix; an arbitrary `draw` covers that case too.
- Embeddings: a tensor is modelled as a leading axis, the middle axes flattened into rows, and vectors along the last axis; other shapes are not modelled.
- RandomRotate.SaveExplorationState: file names are compared as strings, so aliases of one file (`a.pth` and `./a.pth`, an absolute path, a symlink, names differing only in case on a case-insensitive file system) are different keys here; RunAfterUnrelatedSave therefore holds only for names that denote different files. Errors from `exploration_state.save` (ip_adapter_utils/random_rotate.py:136), such as an unwritable path or a missing directory, are not modelled: the model always succeeds.
- ip_adapter_utils/exploration_state.py is not part of this model. A state file holds the embedding it was saved with; file-format and load errors, and the device a tensor lives on, are not modelled.
- RandomRotate.Run: a latent is modelled by its `"samples"` alone, so the model does not show that the returned latent is a new dictionary holding only `"samples"`, dropping any other key of the input latent (such as `"noise_mask"` or `"batch_index"`). `num_samples` is a natural number: a negative value, which in the source raises like 0 does (`range` is empty and `torch.cat([])` fails), is not modelled; the declared minimum is 1.
- The `print` calls of both `run` methods are left out; they produce no value.
- `VAEDecode_to_folder`, `Filepicker`, `IMG_scaler`, `convert_pnginfo_to_dict` and the node registration tables are outside the modelled core.
