# Display-server and Windows GPU detection, modelled in Dafny

This project models two pieces of fastfetch's detection layer.

- **Display server** (`src/detection/displayserver/displayserver.c`). It covers
  the refresh-rate normaliser `ffdsParseRefreshRate`, the guarded append
  `ffdsAppendDisplay`, and the compute-once connection `ffConnectDisplayServer`.
- **GPU detection on Windows** (`src/detection/gpu/gpu_windows.cpp`). It covers
  the registry backend `detectWithRegistry`, the DXGI backend `detectWithDxgi`,
  the vendor and memory-tier classifiers inside them, and the fallback in
  `ffDetectGPUImpl`.

The OS sources are given as data. The registry is an optional opened DirectX
key: its `LastSeen` value plus what enumerating its subkeys yields. DXGI is an
optional factory plus what enumerating its adapters yields. Each enumeration
step either fails (the loop stops), cannot be opened or described (the entry is
skipped), or is read. The enumeration call at any index past the last given
entry fails, as `RegEnumKeyExW` and `EnumAdapters1` do once there are no more
items (`EnumAt`).

Three helpers carry the classifiers' and filters' conditions:

- `WideChar` is the `(wchar_t)` cast, which keeps the low 16 bits of a vendor id.
- `IsCurrentHardwareAdapter` is the registry filter: the subkey's LastSeen reads and equals the DirectX key's, and SoftwareAdapter reads 0.
- `IsHardwareAdapter` is the DXGI filter: the `DXGI_ADAPTER_FLAG_SOFTWARE` bit is clear.

The `VendorName`, `RegistryRecordsFilter` and `DxgiRecordsFilter` rows state what these helpers mean for the records.

Files:

- `integers.dfy`: the fixed-width integer types.
- `options.dfy`: `Option`.
- `result_list.dfy`: `ResultList<T>`, the append-only list (FFlist).
- `displayserver.dfy`: module `DisplayServer`.
- `gpu.dfy`: the GPU record and the vendor-name constants.
- `gpu_windows.dfy`: module `GpuWindows`.

`ParseRefreshRate` does its arithmetic in `int32`, so the verifier checks that
no intermediate value overflows. Its largest result is 2147483645.

The two backend loops are methods that append to a `ResultList` in place. Each
is proved equal to a specification function: `RegistryDetection` or
`DxgiDetection`. Both are built on `Collect`, which describes the shared loop
shape: enumerate in index order, stop at the first failing enumeration call,
skip entries that cannot be read or do not pass the filter, and append one
record per remaining entry. The fallback method `DetectGpuImpl` is proved equal
to `GpuDetection`.

## Model

| member | source | states |
|---|---|---|
| `DisplayServer.ParseRefreshRate` | src/detection/displayserver/displayserver.c:4-19 | A rate ≤ 0 gives 0. A positive rate gives a multiple of 5 or 144, within 2 of the input (within 3 only for 147→144). The result never exceeds 2147483645, and the int32 arithmetic cannot overflow. |
| `DisplayServer.ParseIsNearestMultipleOfFive` | src/detection/displayserver/displayserver.c:9-17 | For a positive rate the result is the unique multiple of five within distance 2, with 145 remapped to 144. Remainders 0–2 round down and 3–4 round up. |
| `DisplayServer.ParseIdempotent` | src/detection/displayserver/displayserver.c:4-19 | Normalising an already normalised rate returns it unchanged. |
| `DisplayServer.ParseRefreshRateExamples` | src/detection/displayserver/displayserver.c:6-17 | Sample values: -60→0, 2→0, 62→60, 63→65, 143→144, 144→144, 147→144, 148→150, INT32_MAX→2147483645. |
| `DisplayServer.AppendDisplay` | src/detection/displayserver/displayserver.c:22-35 | Returns true exactly when width and height are both non-zero. Then the list gains exactly one display with the given fields, refresh rate not normalised, after the unchanged earlier ones. Otherwise the list is unchanged. A list of displays with non-zero dimensions keeps that property. |
| `DisplayServer.DisplayServerDetector.constructor` | src/detection/displayserver/displayserver.c:41-43 | Before the first request the result is empty and the backend has not run. |
| `DisplayServer.DisplayServerDetector.Connect` | src/detection/displayserver/displayserver.c:39-44 | Always returns the same result object, which is empty until the first call. The first call stores what the platform backend produced. Later calls leave the result untouched. The backend runs exactly once. |
| `DisplayServer.ConnectTwice` | src/detection/displayserver/displayserver.c:39-44 | Two requests return the same object, holding what the backend reported on the first request. |
| `ResultStore.ResultList.Add` | src/detection/gpu/gpu_windows.cpp:42 | Appends one record at the end and keeps earlier records and their order. |
| `GpuWindows.VendorName` | src/detection/gpu/gpu_windows.cpp:55-60 | The result is AMD, Intel or NVIDIA exactly when the id's low 16 bits are in that vendor's table, and empty exactly when they are in none. The tables are disjoint, so the order of the checks does not matter. |
| `GpuWindows.VendorNameIgnoresHighBits` | src/detection/gpu/gpu_windows.cpp:91-96 | The `(wchar_t)` cast means ids equal modulo 2^16 get the same vendor. |
| `GpuWindows.VendorNameExamples` | src/detection/gpu/gpu_windows.cpp:91-98 | Sample ids: 0x1002→AMD, 0x8086→Intel, 0x10de→NVIDIA, 0x110de→NVIDIA (truncated), 0→empty. |
| `GpuWindows.MemoryTier` | src/detection/gpu/gpu_windows.cpp:105 | Never unknown. Discrete exactly when dedicated memory is at least 2^30 bytes, otherwise integrated. |
| `GpuWindows.RegistryGpuType` | src/detection/gpu/gpu_windows.cpp:63-67 | Unknown exactly when the memory value cannot be read. Otherwise it is the memory tier. |
| `GpuWindows.MemoryTierExamples` | src/detection/gpu/gpu_windows.cpp:63-67 | 1073741824 bytes→discrete, 1073741823→integrated, no reading→unknown. |
| `GpuWindows.CollectCount` | src/detection/gpu/gpu_windows.cpp:24-68 | An enumeration loop appends exactly one record per entry that is read, passes the filter and comes before the first failing enumeration call. |
| `GpuWindows.CollectAppend` | src/detection/gpu/gpu_windows.cpp:24-68 | Records come out in enumeration-index order: a run of entries without a failure, then more entries, gives the first run's records followed by the rest's. |
| `GpuWindows.CollectStep` | src/detection/gpu/gpu_windows.cpp:79-111 | One more successful enumeration step adds the record of that entry when it is read and kept, and nothing otherwise. |
| `GpuWindows.CollectStopsAtFailure` | src/detection/gpu/gpu_windows.cpp:26-28 | Entries after the first failing enumeration call contribute nothing. |
| `GpuWindows.CollectMembership` | src/detection/gpu/gpu_windows.cpp:30-40 | A record is appended if and only if some entry before the first failing enumeration call was read, passes the filter and yields that record. |
| `GpuWindows.RegistryRecord` | src/detection/gpu/gpu_windows.cpp:42-67 | A new registry record has unset temperature and core count and an empty driver. Its name is the Description or empty. Its vendor is classified only when VendorId reads. Its type is unknown exactly when DedicatedVideoMemory is missing. |
| `GpuWindows.RegistryDetection` | src/detection/gpu/gpu_windows.cpp:10-71 | Succeeds exactly when the DirectX key opens and its LastSeen reads. Both error returns append nothing. |
| `GpuWindows.RegistryRecordsFilter` | src/detection/gpu/gpu_windows.cpp:30-40 | A registry record appears if and only if a subkey before the first failing enumeration opened, has LastSeen equal to the DirectX key's, and has SoftwareAdapter reading 0. |
| `GpuWindows.RegistryRecordsInitialised` | src/detection/gpu/gpu_windows.cpp:42-48 | Every registry record has the unset sentinels and an empty driver. |
| `GpuWindows.DetectWithRegistry` | src/detection/gpu/gpu_windows.cpp:10-71 | The loop returns the registry backend's error. It appends exactly the registry backend's records, in order, after the existing ones. |
| `GpuWindows.DxgiRecord` | src/detection/gpu/gpu_windows.cpp:89-110 | A DXGI record has unset sentinels and an empty driver. Its name is the description and its vendor is classified. Its type is never unknown: discrete exactly when memory is at least 2^30 bytes. |
| `GpuWindows.DxgiDetection` | src/detection/gpu/gpu_windows.cpp:73-116 | Fails exactly when the factory cannot be created, and then appends nothing. |
| `GpuWindows.DxgiRecordsFilter` | src/detection/gpu/gpu_windows.cpp:79-87 | A DXGI record appears if and only if an adapter before the first failing EnumAdapters1 was described and lacks the software flag. |
| `GpuWindows.DxgiRecordsInitialised` | src/detection/gpu/gpu_windows.cpp:100-110 | Every DXGI record has the unset sentinels, an empty driver and a known type. |
| `GpuWindows.DetectWithDxgi` | src/detection/gpu/gpu_windows.cpp:73-116 | The loop returns the DXGI backend's error. It appends exactly the DXGI backend's records, in order, after the existing ones. |
| `GpuWindows.GpuDetection` | src/detection/gpu/gpu_windows.cpp:118-124 | Succeeds exactly when the registry backend succeeds or a DXGI factory exists. On an error, no records. |
| `GpuWindows.RegistrySuccessSkipsDxgi` | src/detection/gpu/gpu_windows.cpp:121-122 | When the registry backend succeeds, even with zero records, the outcome is the registry's and does not depend on DXGI. |
| `GpuWindows.RegistryFailureFallsBackToDxgi` | src/detection/gpu/gpu_windows.cpp:121-123 | When the registry backend fails, it appended nothing and the outcome is DXGI's alone. |
| `GpuWindows.DetectedRecordsInitialised` | src/detection/gpu/gpu_windows.cpp:118-124 | Whichever backend answers, every appended record has the unset sentinels and an empty driver. |
| `GpuWindows.DetectGpuImpl` | src/detection/gpu/gpu_windows.cpp:118-124 | Returns the error and appends exactly the records of the registry-then-DXGI fallback. |

## Left out

- Win32 registry calls (`ffRegOpenKeyForRead`, `RegEnumKeyExW`, `ffRegRead*`) and DXGI/COM calls are not modelled. Their results are inputs: an `Option` per read and an `Enumerated` entry per enumeration step.
- A subkey name longer than the 64-wide-character buffer makes `RegEnumKeyExW` fail. The model does not look at names; such a step is simply an `EnumFailed` entry.
- Handle and COM lifetime (`FF_HKEY_AUTO_DESTROY`, `Release()`) is not modelled. That includes the adapter that is not released when the loop continues.
- UTF-16 to UTF-8 conversion of names (`ffStrbufSetWS`) and `FFstrbuf` internals are not modelled. Names are plain strings.
- `ResultList.Add` takes a finished record. The source first adds an empty slot with `ffListAdd` and then writes the fields. Nothing observes the list in between, so the final lists are the same.
- The temperature and core-count sentinels of gpu.h are modelled as `None`. The floating-point NaN temperature is not modelled. gpu.h is not part of this model; the vendor names "AMD", "Intel" and "NVIDIA" are fastfetch's.
- DisplayServer.DisplayServerDetector.Connect: the internals and thread safety of `FF_DETECTION_INTERNAL_GUARD` are not modelled, because its header is not part of this model. Only the compute-once contract is stated.
- `ffConnectDisplayServerImpl` and the platform display backends are not modelled. Their effect is a parameter: the displays the backend would leave in the result.
- The other fields of the display-server result (window manager and desktop names) are not modelled.
- `src/detection/processes/processes_bsd.c` is not modelled. It is a thin wrapper over `sysctl()`.
