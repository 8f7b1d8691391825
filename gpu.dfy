/**
 * The GPU record filled by the GPU backends and the constants they use. These
 * are declared in gpu.h, which is not part of this model; the vendor names are
 * fastfetch's. The unset temperature and core-count sentinels are modelled as
 * `None`, which keeps "not measured" apart from any measured value.
 */
module Gpu {
  import opened Options

  datatype GpuType = Unknown | Integrated | Discrete

  const VendorNameAmd: string := "AMD"
  const VendorNameIntel: string := "Intel"
  const VendorNameNvidia: string := "NVIDIA"

  datatype GpuResult = GpuResult(
    vendor: string,
    name: string,
    driver: string,
    gpuType: GpuType,
    temperature: Option<real>,
    coreCount: Option<int>)

  /** Temperature and core count carry the unset sentinel and the driver string is empty. */
  predicate SentinelsSet(gpu: GpuResult) {
    gpu.temperature.None? && gpu.coreCount.None? && gpu.driver == ""
  }
}
