/** Small building blocks shared by all modules of the anoubisd model. */
module Basics {

  datatype Option<+T> = None | Some(value: T)

  /** One byte of a path name, message or checksum. */
  newtype byte = x: int | 0 <= x < 256

  type Bytes = seq<byte>

  /** Path names without their terminating NUL byte. */
  type Path = seq<byte>

  /** A C string without its terminating NUL byte. */
  type CString = s: Bytes | 0 !in s

  type Uid = nat

  /** Task, connection and playground cookies; zero means "none". */
  type Cookie = nat

  /** The value (uid_t)-1. */
  const NO_UID: Uid := 0xFFFF_FFFF

  /** PE_PRIO_MAX: priority 0 is the administrator, priority 1 the user. */
  const PRIOS: nat := 2

  type Prio = i: nat | i < PRIOS

  /** struct pe_proc_ident */
  datatype Ident = Ident(path: Option<Path>, csum: Option<Bytes>)

  const NO_IDENT := Ident(None, None)

  /** ANOUBIS_CS_LEN: the length of a SHA-256 checksum */
  const CS_LEN: nat := 32

  /** SIZE_LIMIT of amsg_verify.c and MSG_SIZE_LIMIT of amsg.c */
  const SIZE_LIMIT: int := 50000
  const MSG_SIZE_LIMIT: nat := 100000

  const PATH_MAX: nat := 4096

  const EPERM: bv32 := 1
}
