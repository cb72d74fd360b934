# NeXus volume loading for the NRRD/NPZ converter

This project models the core of the converter `utils/nxs2nrrd.py`. The converter reads a
volume and its axes from a NeXus (HDF5) file and writes them as NRRD or as a
compressed NumPy archive. The model covers four of its decisions:

- **Default-group resolution** (`load_vol_nxs`). The root's `default` attribute names an
  entry, and that entry's `default` names its data group. Any missing link leaves the
  caller's `group` in place.
- **Signal and axes selection.** In an `NXdata` group, the `signal` attribute (`"data"`
  when absent) names the volume, and the `axes` attribute replaces the caller's axis
  names. In any other group, the caller's `data_name` and `axis_names` are used. The
  axes are read into an insertion-ordered table.
- **The NRRD header** of `save_vol_nrrd`: one label, spacing and origin per axis.
- **The output file name** of the command line.

The HDF5 file is a value, `Hdf.Node`: groups hold attributes and named members, and
datasets hold samples. Members are reached by `/`-separated paths. Attribute values are
scalar byte strings (`Text`) or arrays of byte strings (`TextList`). Exceptions the
source raises become `Failure` values, and each one names the path or the attribute
involved.

Modules: `Wrappers` (Option, Result), `Hdf` (container, path lookup), `NxsLoad`
(the load), `NrrdHeader`, `OutputNaming`.
`NxsLoad.Load` is the specification of the load, composed of one function per decision.
`NxsLoad.LoadVolNxs` is the step-by-step procedure, proved equal to it.

## Model

| member | source | states |
|---|---|---|
| `Hdf.AttrOf` | utils/nxs2nrrd.py:43-74 | `attrs.get(key)` finds a value exactly when the node is a group holding that key, and then it is the stored value |
| `Hdf.Components` | utils/nxs2nrrd.py:46-60 | the link names of a path are non-empty and free of `/` (empty components of leading, doubled or trailing separators are dropped) |
| `Hdf.Get` | utils/nxs2nrrd.py:46-88 | the empty name reaches nothing; a lookup that succeeds along at least one link starts at a member of the group; nothing is found below a dataset |
| `Hdf.ComponentsJoinNames` | utils/nxs2nrrd.py:58-60 | splitting a path joined from link names gives back exactly those names |
| `Hdf.GetJoin` | utils/nxs2nrrd.py:55-60 | for non-empty `a` and `b`, looking up `a + "/" + b` from a node finds what looking up `b` below the member at `a` finds, and fails when either step fails |
| `Hdf.GetName` | utils/nxs2nrrd.py:46 | a single link name reaches the group member of that name, or nothing |
| `NxsLoad.ResolveGroup` | utils/nxs2nrrd.py:43-58 | when all four links hold (root `default` = e, entry e exists, its `default` = d, d is in it) the group is exactly `e/d`; any other successful result is the caller's group unchanged; it fails exactly when a `default` attribute it reads is an array (no `.decode()`) or the root's `default` is empty (`f.get("")` raises), and never for a missing attribute, entry or member; an empty data name is not a member, so the caller's group stays |
| `NxsLoad.FollowDefaults` | utils/nxs2nrrd.py:43-58 | the imperative chain, reassigning the group, returns what `ResolveGroup` specifies |
| `NxsLoad.OpenGroup` | utils/nxs2nrrd.py:60 | `f[group]` succeeds exactly when the path exists and yields that node (never for the empty path); otherwise it fails naming the group |
| `NxsLoad.IsNXdata` | utils/nxs2nrrd.py:64-65 | the group counts as NXdata exactly when `NX_class` is `NXdata` as a scalar or as a one-element array; an array of any other length has no truth value and fails |
| `NxsLoad.SignalName` | utils/nxs2nrrd.py:67 | the signal name is the `signal` attribute, `"data"` when absent; an array value fails |
| `NxsLoad.ReadMember` | utils/nxs2nrrd.py:79-80 | `g[name][...]` succeeds exactly when the member is a dataset and yields its samples; a failure names `group/name` and is a not-found exactly when the member is missing |
| `NxsLoad.Volume` | utils/nxs2nrrd.py:64-80 | outside NXdata the volume is the `data_name` member; in NXdata it is the `signal` member when that is a dataset, and the `data_name` member when the signal member is missing; a `signal` member that is a group fails, an array `signal` fails with its error, and an empty `signal` fails since `g.get("")` raises; a volume is always a dataset of the group |
| `NxsLoad.DecodeNames` | utils/nxs2nrrd.py:83 | decoding `axes` succeeds exactly for an array of strings (giving its items) or the empty scalar string (giving no names); any other scalar fails |
| `NxsLoad.AxisNames` | utils/nxs2nrrd.py:63-83 | outside NXdata, or without an `axes` attribute, the caller's names stand; in NXdata an `axes` attribute replaces them with its decoded names, or fails with the decoding error |
| `NxsLoad.Put` | utils/nxs2nrrd.py:88 | `d[n] = v` on the ordered table: a new name is appended as the last entry; a present name keeps its place, its (first) entry takes the new samples and every other entry is unchanged |
| `NxsLoad.FirstIndex` | utils/nxs2nrrd.py:88 | the index returned holds the name and no earlier index does |
| `NxsLoad.DistinctOrdered` | utils/nxs2nrrd.py:88 | the table's key list holds exactly the given names, each once, ordered by first occurrence |
| `NxsLoad.DistinctOfRepeatFree` | utils/nxs2nrrd.py:88 | names without repeats are their own key list |
| `NxsLoad.CollectAxes` | utils/nxs2nrrd.py:85-88 | the table is built exactly when every name reads; otherwise the error is that of the first name that does not read; its keys are the distinct names in first-occurrence order, and each entry holds the samples of its member |
| `NxsLoad.CollectAxesFailsAt` | utils/nxs2nrrd.py:88 | a name that fails after names that all read decides the failure of the whole table |
| `NxsLoad.CollectAxesAppendNew` | utils/nxs2nrrd.py:88 | a readable name not seen before adds its entry at the end of the table |
| `NxsLoad.CollectAxesOfRepeatFree` | utils/nxs2nrrd.py:88 | for readable names without repeats the table holds one entry per name, in the given order |
| `NxsLoad.Axes` | utils/nxs2nrrd.py:85-88 | without axis names there is no table; with names, the table is built exactly when every name reads, its keys are the distinct names in order, and a failure is that of the table |
| `NxsLoad.ReadAxes` | utils/nxs2nrrd.py:88 | the name-by-name loop returns what `CollectAxes` specifies |
| `NxsLoad.Load` | utils/nxs2nrrd.py:42-90 | a successful load reports as its group the one the default chain resolves to, and that group opens |
| `NxsLoad.LoadVolNxs` | utils/nxs2nrrd.py:42-90 | the procedure, with its reassigned locals and the NXdata branch, returns exactly what `Load` specifies, failures included |
| `NxsLoad.DefaultChainOverridesGroup` | utils/nxs2nrrd.py:43-60 | when the whole chain holds, the joined path `e/d` opens the entry's member `d`, the result's group is `e/d`, and the caller's group makes no difference |
| `NxsLoad.SignalOverridesDataName` | utils/nxs2nrrd.py:64-72 | in NXdata, when the `signal` member is a dataset, it is the volume, whatever `data_name` the caller gave |
| `NxsLoad.VolumeFromDataName` | utils/nxs2nrrd.py:64-80 | outside NXdata, or when the (non-empty) signal member is missing, the volume is the `data_name` member, and a missing one fails the load with exactly that error |
| `NxsLoad.AxesFollowNamesInForce` | utils/nxs2nrrd.py:63-88 | the result has an axis table exactly when axis names are in force; its keys are those names without repeats in order; each entry is its member's samples; outside NXdata the caller's names are the ones in force, and in NXdata an array `axes` attribute replaces them |
| `NxsLoad.AxesAttributeIgnoredOutsideNXdata` | utils/nxs2nrrd.py:63-83 | outside NXdata, giving the group any `axes` value changes neither the volume nor the axis names |
| `NxsLoad.ConverterDefaultsWithoutChain` | utils/nxs2nrrd.py:117 | with the defaults of line 21, a file without `default` and a non-NXdata group, the result is the `volume` member of `processed/reciprocal_space` with no axes, or the failure reading it |
| `NxsLoad.ExampleResolves` | utils/nxs2nrrd.py:43-60 | in a file laid out root → entry `e` → NXdata group `d`, the chain resolves to `e/d` and that path opens the data group |
| `NxsLoad.ExampleSelects` | utils/nxs2nrrd.py:64-83 | in that data group, the signal dataset is the volume and the `axes` attribute gives the axis names |
| `NxsLoad.ExampleAxes` | utils/nxs2nrrd.py:85-88 | that group's three distinct axes are tabulated in their given order |
| `NxsLoad.ExampleLoad` | utils/nxs2nrrd.py:7-20 | loading such a file gives `e/d`, the signal samples and the three axes in order, whatever group, `data_name` and `axis_names` the caller passed |
| `NrrdHeader.FirstShort` | utils/nxs2nrrd.py:95 | finds the first axis with fewer than two samples, or reports that every axis has two |
| `NrrdHeader.HeaderOf` | utils/nxs2nrrd.py:94-99 | it fails for a result without axes, and for the first axis too short for `i[1]`; otherwise the labels are the axis names in order, and there is one spacing `a[1]-a[0]` and one origin `a[0]` per axis, in the fixed space |
| `NrrdHeader.UniformSample` | utils/nxs2nrrd.py:95-96 | on an axis with a constant step, sample i is the first sample plus i steps |
| `NrrdHeader.HeaderRecoversUniformAxes` | utils/nxs2nrrd.py:95-99 | for uniformly spaced axes, `origin + i * spacing` from the header gives back every sample |
| `NrrdHeader.HeaderLabelsFollowAxisNames` | utils/nxs2nrrd.py:88-98 | the header's labels are the axis names in force, without repeats, in first-occurrence order |
| `OutputNaming.LastIndexOf` | utils/nxs2nrrd.py:121 | `rfind` returns the last index holding the character, or -1 when none does |
| `OutputNaming.Extension` | utils/nxs2nrrd.py:115-122 | the extension is a leading dot with no other dot, and ends in `nrrd` exactly when the program's name contains `nrrd` |
| `OutputNaming.Stem` | utils/nxs2nrrd.py:121-122 | the stem is a prefix of the input; it is the whole input exactly when no dot occurs after position 0; otherwise the stem is followed by the input's last dot |
| `OutputNaming.OutputName` | utils/nxs2nrrd.py:113-122 | fewer than two operands fail; an explicit second operand is the name; otherwise the name is the stem followed by the extension, and it ends in `.nrrd` exactly when the program name contains `nrrd` (`.npz` otherwise) |
| `OutputNaming.LastDotOfDerived` | utils/nxs2nrrd.py:121 | in a stem followed by an extension, the last dot is the one the extension starts with |
| `OutputNaming.DerivedNameKeepsStem` | utils/nxs2nrrd.py:121-122 | stripping the extension from a derived name gives back the input's stem |
| `OutputNaming.OutputNameIdempotent` | utils/nxs2nrrd.py:115-122 | deriving a name from a derived name gives the same name |
| `OutputNaming.StemCrossesDirectory` | utils/nxs2nrrd.py:121-122 | as written, `run.1/scan` has the stem `run` |
| `OutputNaming.StemOfFile` | utils/nxs2nrrd.py:121-122 | the corrected stem removes only characters after the last `/`, and only an extension that starts after the file name's first character |
| `OutputNaming.StemOfFileWithoutDirectories` | utils/nxs2nrrd.py:121-122 | for a name without directories, the corrected stem agrees with the code's stem |
| `OutputNaming.StemOfFileKeepsDirectory` | utils/nxs2nrrd.py:121-122 | the corrected stem of `run.1/scan` is the whole name |

## Left out

- Opening and reading the file through h5py, `nrrd.write` and `np.savez` are I/O. The file is a value given to `Load`, and the converter's result is the returned record.
- The intensity rescaling `(volume - v_min) / (v_max - v_min)` and the cast to the output type (lines 101-104) are floating-point numerics. This includes the unguarded division by zero for a constant volume. The `print` of shape and range is also left out.
- NrrdHeader.HeaderOf: does not model the `np.round(..., 15)` of spacings and origins; values are exact reals.
- `logging.warning` diagnostics have no effect on the result.
- Datasets carry no attributes and are flattened to one sequence of samples; their shapes and the extents per dimension are not modelled. So a multi-dimensional axis array is not distinguished from a 1-D one.
- Member names are resolved relative to the group in every lookup. HDF5 resolves a name that starts with `/` from the file root; that case is not modelled, and neither are `.` components, soft or external links, or lookups with a bytes name.
- Attribute values are byte strings that decode as UTF-8. Two cases are not modelled. h5py 3 reads a variable-length string attribute as `str`: `.decode()` then raises (lines 45, 54, 83) and `nx_class == b"NXdata"` is false (line 65). And a byte string that is not valid UTF-8 makes `.decode()` raise `UnicodeDecodeError`.
- `f[""]` and `g[""]` (lines 60, 79, 88) fail as a not-found member here; h5py raises a different exception type for the empty name, which is also a failure of the load.
- An attribute holding an array is compared as numpy does for a one-element array only. The deprecated truth value of an empty array under older numpy (false, where current numpy raises) is not modelled.
- `sys.argv` handling beyond the output name, and the order in which the converter runs the load and the name derivation, are not modelled.
- `utils/colourmap.py` is not part of this model: it is a thin wrapper over an external colormap library plus image I/O.

## Findings

| source | as written | input that shows it | evidently intended | confidence | as-written member | corrected member |
|---|---|---|---|---|---|---|
| utils/nxs2nrrd.py:121-122 | the extension is cut at the last `.` anywhere in the path, as long as it is not at index 0 | `run.1/scan` gives the stem `run`, so the output is `run.npz` in the parent directory | only a dot in the file name (after the last `/`, and not its first character) starts an extension, so the output is `run.1/scan.npz` | medium, not executed | `OutputNaming.StemCrossesDirectory` | `OutputNaming.StemOfFile` |

`OutputNaming.OutputName` keeps the code's behaviour. `StemOfFile` agrees with it on names without directories (`StemOfFileWithoutDirectories`).
