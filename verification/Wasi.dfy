/** The vocabulary shared by the preview 1 adapter and the preview 2 host. */
module Wasi {
  import opened Bytes

  type Fd = u32

  /** Preview 1 errors that the modelled code itself returns; `Host` stands for any error code
      the host import returned, already translated. */
  datatype Errno = BADF | NOTDIR | INVAL | NOMEM | SPIPE | INTR | IO | OVERFLOW | Host(code: u16)

  /** How a call can end other than by success: with an errno, or by trapping the instance. */
  datatype Failure = Error(errno: Errno) | Trap

  datatype DescriptorType =
    | RegularFile | Directory | BlockDevice | CharacterDevice | Fifo | Socket | SymbolicLink | Unknown
}
