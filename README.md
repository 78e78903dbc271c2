# MRIMate volume preparation and subplot layout, in Dafny

This project models the two pieces of MRIMate that carry integer logic:

* **Volume preparation in `MRImateExperiment`** (`src/mrimate/mrimate.py`).
  `load` stores the PAR header and the REC voxel array, then overwrites the
  `data` field twice: `removing_unwanted_zeros` crops axes 0, 1 and 2 to the
  tight inclusive bounding box of the non-zero voxels (later axes keep their
  extent), and `resize_data` reshapes the result to
  `(d0, d1, MaxNumberOfSlicesLocations, MaxNumberOfDynamics)` in row-major
  order. `describe` builds a summary from a few header fields.
* **The layout rules of `plot_2d_data`** (`src/mrimate/plot.py`): the
  dimension checks, the defaults of `slice_idx` and `dynamic_idx`, the
  subplot grid (`min(n, 4)` columns, ceiling-division rows, subplot `k` in
  cell `(k // cols + 1, k % cols + 1)`), which dynamics are shown (all up to
  16, otherwise every `interval`-th plus the last), and the figure size
  (never below 600 pixels).

A numpy array is a `Volume`: its row-major flattening (`seq<int>`) and its
shape (`seq<nat>`). `NdArray.Offset` and `NdArray.Unflatten` are numpy's C
order and its inverse. Voxel values are integers; only "zero or not" matters.

Modules:

* `NdArray` (`ndarray.dfy`): volumes, element count, row-major index map.
* `Preparation` (`preparation.dfy`): the bounding box, the crop and the
  reshape as functions, with their properties as lemmas.
* `MRImate` (`mrimate.dfy`): the header record, the `Experiment` class whose
  methods overwrite its `data` field as the Python methods do, and the
  decision rules of `describe`.
* `Plot` (`plot.dfy`): the grid arithmetic as functions, the subplot
  placement loop, the dynamics selection and the two branches as methods,
  and `Plot2dData`.
* `Wrappers` (`wrappers.dfy`): `Option` and `Result`.

Errors are values. `Preparation.Error` covers five cases:

* `EmptyVolume`: numpy's min over the empty non-zero index set.
* `MissingAxis`: indexing an axis that the array does not have.
* `ShapeMismatch`: numpy's reshape error.
* `Unloaded`: reading an attribute that `load` has not yet assigned.
* `MissingEntry`: indexing a header list past its end (`ScanResolution[1]`).

`Plot.PlotError` lists the exceptions that `plot_2d_data` can raise, apart
from plotly's own argument checks.

Four facts of the code as written, each proved:

* `load` crops before it reshapes (mrimate.py:68-69). The element-count
  check therefore applies to the cropped volume, not the raw one
  (`MRImate.CountCheckedAfterCrop`).
* The Flow Encoding line of `describe` always reads "Yes". The test is the
  truthiness of a 3-tuple, which is never empty.
* The 'slices' branch of `plot_2d_data` accepts 3-axis data. Its first
  trace then indexes `data[:, :, i, dynamic_idx]`, which needs 4 axes, so
  such data fails with an index error (`Plot.PlotSlices`, `Plot.Plot2dData`).
* `np.min(data)` runs before any branch, so an array with no elements fails
  there. Every later `num_slices` and `num_dynamics` is therefore at least 1.
  This rules out the division by zero in the row count and the empty
  `dynamics_indices[0]`. The insert at plot.py:113-114 never fires.

## Model

| member | source | states |
|---|---|---|
| NdArray.Offset | src/mrimate/mrimate.py:93 | the row-major (C order) position of a valid multi-index lies below the element count |
| NdArray.Unflatten | src/mrimate/mrimate.py:96 | the coordinates of a flat position form a valid multi-index whose row-major position is that flat position |
| NdArray.UnflattenOffset | src/mrimate/mrimate.py:96 | distinct multi-indices have distinct flat positions: Unflatten recovers the index from its Offset |
| Preparation.BoxUpTo | src/mrimate/mrimate.py:96-99 | the per-axis min and max of the non-zero coordinates satisfy min <= max < extent on every axis |
| Preparation.BoxUpToNone | src/mrimate/mrimate.py:96-99 | there is no bounding box exactly when every voxel seen is zero |
| Preparation.BoxUpToEncloses | src/mrimate/mrimate.py:96-99 | every non-zero voxel has each coordinate between the box's min and max |
| Preparation.BoxUpToAttained | src/mrimate/mrimate.py:98-99 | on every axis the min and the max are each the coordinate of some non-zero voxel |
| Preparation.CroppedShape | src/mrimate/mrimate.py:101 | each cropped axis has length max-min+1, at most the input extent; axes after the third keep their extents |
| Preparation.CropTo | src/mrimate/mrimate.py:101 | the slice to the box is a well-formed volume of the cropped shape |
| Preparation.CropPadding | src/mrimate/mrimate.py:95-103 | a successful crop is well-formed and keeps the number of axes, which is at least 3 |
| Preparation.CropErrors | src/mrimate/mrimate.py:96-101 | the crop fails with EmptyVolume exactly for an all-zero volume, and with MissingAxis exactly when a non-zero voxel exists but there are fewer than 3 axes |
| Preparation.CropValueAt | src/mrimate/mrimate.py:101 | result element (i, j, k, rest) equals input element (min0+i, min1+j, min2+k, rest) |
| Preparation.NonZeroInBox | src/mrimate/mrimate.py:96-99 | a non-zero voxel lies inside the bounding box on every axis |
| Preparation.CropKeepsNonZero | src/mrimate/mrimate.py:96-101 | no non-zero voxel is lost: each lies in the box on axes 0-2 and reappears, same value, at the shifted-back position of the result |
| Preparation.CropIsTight | src/mrimate/mrimate.py:98-101 | a volume with at least 3 axes and a non-zero voxel crops successfully, and on each of axes 0, 1 and 2 the first and the last index plane of the result contain a non-zero voxel |
| Preparation.BorderlessUnchanged | src/mrimate/mrimate.py:95-103 | cropping a volume without a zero border returns it unchanged, shape and values |
| Preparation.CropIdempotent | src/mrimate/mrimate.py:95-103 | every volume the crop accepts (at least 3 axes, a non-zero voxel) crops successfully, and cropping the result again returns it unchanged |
| Preparation.ReshapeSpec | src/mrimate/mrimate.py:90-93 | `Reshape`, the model of np.reshape to (d0, d1, slices, dynamics), succeeds exactly when d0*d1*slices*dynamics equals the element count; the result has shape (d0, d1, slices, dynamics) and the same flat data; fewer than 2 axes fail with MissingAxis, and otherwise a failure is always ShapeMismatch |
| Preparation.ReshapedVoxel | src/mrimate/mrimate.py:93 | element (i, j, k, t) of the reshaped volume is flat element ((i*d1 + j)*slices + k)*dynamics + t |
| MRImate.PrepareSpec | src/mrimate/mrimate.py:63-69 | `Prepare`, load's data, is the crop followed by the reshape; the count check is made on the cropped volume; a crop failure is passed through |
| MRImate.CountCheckedAfterCrop | src/mrimate/mrimate.py:68-69 | a raw volume whose count fits the header still fails once its zero plane is cropped |
| MRImate.Experiment.constructor | src/mrimate/mrimate.py:49-61 | a new experiment has no parameters and no data yet |
| MRImate.Experiment.Load | src/mrimate/mrimate.py:63-69 | stores the header, then crops and reshapes the data field; succeeds exactly when the prepared volume exists; a failing step leaves the data its predecessor left |
| MRImate.Experiment.RemoveUnwantedZeros | src/mrimate/mrimate.py:95-103 | replaces the data field by its crop, or reports the crop's error and leaves it unchanged |
| MRImate.Experiment.ResizeData | src/mrimate/mrimate.py:90-93 | reads the data's first two extents before the header, as the target tuple is built left to right: no data gives Unloaded, fewer than 2 axes MissingAxis, then a missing header Unloaded; otherwise replaces the data field by its reshape to the header's slice and dynamic counts, or reports the reshape error and leaves it unchanged |
| MRImate.Experiment.Describe | src/mrimate/mrimate.py:71-87 | the summary is `Description`, the fixed sequence of lines filled from the header; before load it fails with Unloaded, and a ScanResolution list with fewer than 2 entries fails with MissingEntry |
| MRImate.Contains | src/mrimate/mrimate.py:77 | the scan finds the pattern exactly when it occurs somewhere in the string |
| MRImate.Dimension | src/mrimate/mrimate.py:77 | the dimension is "3D" exactly when SeriesDataType contains "3D", otherwise "2D" |
| MRImate.NatToString | src/mrimate/mrimate.py:80-82 | Python's str of a natural number: decimal digits without a leading zero whose value is the number |
| MRImate.IntToString | src/mrimate/mrimate.py:80-82 | Python's str of an int: a minus sign exactly for negative numbers, followed by digits without a leading zero whose value is the number's magnitude |
| MRImate.DynamicsText | src/mrimate/mrimate.py:82 | the Dynamics field is "None" exactly when MaxNumberOfDynamics <= 1, otherwise the count |
| MRImate.FlowEncodingText | src/mrimate/mrimate.py:83 | the Flow Encoding field is "Yes" for every encoding velocity, including (0, 0, 0) |
| MRImate.DiffusionLine | src/mrimate/mrimate.py:84 | the summary ends with the line "- Diffusion Encoding: Yes" exactly when the Diffusion flag is non-zero, and with "- Diffusion Encoding: No" exactly when it is 0 |
| Plot.GridRows | src/mrimate/plot.py:46-47 | rows = ceil(count / cols): the grid holds every subplot (count <= rows*cols) and has no empty row (rows*cols < count + cols) |
| Plot.CellInGrid | src/mrimate/plot.py:57-59 | `CellOf`: subplot k of count gets row k//cols+1 in [1, rows] and column k%cols+1 in [1, cols] |
| Plot.CellInjective | src/mrimate/plot.py:57-59 | distinct subplots get distinct cells |
| Plot.PlaceSubplots | src/mrimate/plot.py:57-63 | the placement loop puts panel k in cell (k//cols+1, k%cols+1), inside the grid and in a cell of its own, in panel order |
| Plot.RangeStep | src/mrimate/plot.py:109 | range(start, stop, step) is start + k*step for each k, strictly increasing, below stop, and stops at the first value not below stop |
| Plot.RangeMembers | src/mrimate/plot.py:107-109 | range(0, n, step) holds exactly the multiples of step below n |
| Plot.SelectDynamics | src/mrimate/plot.py:107-116 | the shown dynamics are strictly increasing, lie in [0, n) and start with 0 and end with n-1; up to 16 they are exactly 0..n-1; above 16 they are the multiples of the interval (8 when not positive) plus n-1 |
| Plot.RotatedProduct | src/mrimate/plot.py:28-32 | rotating over axes (0, 1) keeps the element count, so the empty-data check by np.min gives the same answer with or without rotation |
| Plot.NonEmptyAxes | src/mrimate/plot.py:32-33 | an array with at least one element has no axis of extent 0 |
| Plot.PlotSlices | src/mrimate/plot.py:42-70 | the 'slices' branch fails with an index error exactly when the data has 3 axes or the dynamic index is out of range; otherwise it shows every slice in order in min(n, 4) columns, subplot k in cell (k//cols+1, k%cols+1), at the given dynamic (0 by default), max(d0*cols, 600) wide and max(d1*rows, 600) high |
| Plot.PlotDynamics | src/mrimate/plot.py:104-141 | the 'dynamics' branch fails with an index error exactly when the slice index is out of range; otherwise it shows the selected dynamics in order in min(n, 4) columns, subplot k in cell (k//cols+1, k%cols+1), at the given slice (0 by default), max(200*cols, 600) x max(200*rows, 600) |
| Plot.Plot2dData | src/mrimate/plot.py:5-141 | exactly which error each input raises, in the source's order, apart from plotly's own argument checks; an empty array fails whether or not it is rotated; on success the figure is at least 600x600, has at most 4 columns, subplot k sits in cell (k//cols+1, k%cols+1) of a grid with no empty row, each in a cell of its own, and the branch taken lays out its panels as PlotSlices and PlotDynamics state; the plot type defaults to 'slices', the indices to None, the interval to 8 and the rotation to off, as in the signature |

## Left out

- Reading the PAR and REC files (`Parread`, `Recread`): these are calls into the external `parrec` library. `Load` takes the header and the raw volume as parameters.
- Header validation in `models.py`: pydantic type checking only. The model keeps the header fields that the experiment reads.
- `describe`'s date: `strptime`/`strftime` are the `formatDate` parameter of `Describe`. A date string that `strptime` rejects is not modelled. `print` is replaced by returning the text.
- File paths (`experiment_path`, `par_file`, `rec_file`): they only name the reader's inputs.
- `plot_proton_density` (transpose and `px.imshow`) and all plotly figure building in `plot_2d_data`: traces, titles, axis and colorbar styling, and the axis-update loops. This is presentation.
- Voxel values in plotting: only the array's shape is modelled. `np.rot90` is modelled by its effect on the shape, and `zmin`/`zmax` by the error on an empty array.
- Floating-point voxel values: voxels are integers. Cropping and reshaping only test them against zero.
- Preparation.ReshapeSpec: a negative slice or dynamic count is reported as ShapeMismatch. numpy's inference of a single -1 extent is not modelled.
- Plot.Plot2dData: plotly's validation of the `make_subplots` arguments (such as `vertical_spacing=0.05`) is not modelled, so an error it might raise is not among the model's errors.
- Plot.Plot2dData: data with more than 4 axes reaches `go.Heatmap` with a 3-axis `z`. What plotly then does is not modelled, and such input is treated as successful.
- Calling `nonzero` on a 0-dimensional array: that numpy-version-specific behaviour is not modelled. A 0-d volume is treated like any other volume with fewer than 3 axes.
