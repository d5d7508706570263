/** The vocabulary shared by the client and the driver: wire codes, NTSTATUS
    values, operation handles and responses, and the validity checks the client
    applies to a response (shared/wispdisk_protocol.h, cli/src/protocol.rs). */
module Protocol {

  datatype Option<+T> = None | Some(value: T)

  type Byte = b: int | 0 <= b < 256

  const U32_LIMIT: nat := 0x1_0000_0000
  const U64_LIMIT: nat := 0x1_0000_0000_0000_0000

  const DISK_COUNT: nat := 16
  const OPERATION_COUNT: nat := 128
  const SECTOR_SIZE: nat := 512
  const MINIMUM_DISK_SIZE: nat := 1024 * 1024
  const MAXIMUM_DISK_SIZE: nat := 256 * 1024 * 1024
  const MAXIMUM_TOTAL_BYTES: nat := 512 * 1024 * 1024

  const CREATE_DISK: nat := 0x801
  const DELETE_DISK: nat := 0x802
  const CREATE_RESERVED: nat := 0x806
  const DELETE_RESERVED: nat := 0x807

  const MEDIA_FIXED: nat := 1
  const MEDIA_REMOVABLE: nat := 2

  /** NTSTATUS is a signed 32-bit value; failures and warnings are negative. */
  type Status = s: int | -0x8000_0000 <= s < 0x8000_0000

  const STATUS_SUCCESS: Status := 0
  const STATUS_PENDING: Status := 0x103
  const STATUS_DEVICE_BUSY: Status := 0x8000_0011 - U32_LIMIT
  const STATUS_INVALID_PARAMETER: Status := 0xC000_000D - U32_LIMIT
  const STATUS_NO_SUCH_DEVICE: Status := 0xC000_000E - U32_LIMIT
  const STATUS_BUFFER_TOO_SMALL: Status := 0xC000_0023 - U32_LIMIT
  const STATUS_QUOTA_EXCEEDED: Status := 0xC000_0044 - U32_LIMIT
  const STATUS_INSUFFICIENT_RESOURCES: Status := 0xC000_009A - U32_LIMIT
  const STATUS_DEVICE_NOT_READY: Status := 0xC000_00A3 - U32_LIMIT
  const STATUS_NOT_FOUND: Status := 0xC000_0225 - U32_LIMIT

  predicate NtSuccess(status: Status) {
    status >= 0
  }

  /** An operation is named by the adapter instance that reserved it and its id there. */
  datatype Handle = Handle(instance: nat, id: nat)

  datatype CreateParams = CreateParams(size: nat, sector: nat, media: nat, letter: nat)

  const NO_CREATE := CreateParams(0, 0, 0, 0)

  /** The field rules of ValidateCreateRequest. */
  predicate ValidCreate(p: CreateParams) {
    && MINIMUM_DISK_SIZE <= p.size <= MAXIMUM_DISK_SIZE
    && p.size % SECTOR_SIZE == 0
    && p.sector == SECTOR_SIZE
    && (p.media == MEDIA_FIXED || p.media == MEDIA_REMOVABLE)
    && 'A' as int <= p.letter <= 'Z' as int
  }

  /** `Unused` is the all-zero record; the other states carry the wire codes 1 to 5. */
  datatype OperationState = Unused | Reserved | Pending | Succeeded | Failed | Deleted

  function StateCode(state: OperationState): nat {
    match state
    case Unused => 0
    case Reserved => 1
    case Pending => 2
    case Succeeded => 3
    case Failed => 4
    case Deleted => 5
  }

  /** The payload of WISPDISK_OPERATION_RESPONSE. */
  datatype OperationResponse = OperationResponse(
    instance: nat, id: nat, mutation: nat, state: nat, result: Status,
    device: nat, path: nat, target: nat, lun: nat)
  {
    predicate IsValidReservation() {
      && instance != 0
      && id != 0
      && (mutation == CREATE_DISK || mutation == DELETE_DISK)
      && state == StateCode(Reserved)
    }

    predicate Matches(handle: Handle, wanted: nat) {
      instance == handle.instance && id == handle.id && mutation == wanted
    }

    predicate IsValidCreatedDisk() {
      && instance != 0
      && id != 0
      && mutation == CREATE_DISK
      && state == StateCode(Succeeded)
      && result == STATUS_SUCCESS
      && device != 0
      && path == 0
      && target == 0
      && lun < DISK_COUNT
    }
  }

  /** One entry of the ListState inventory; `state` is 1 for online, 2 for stopping. */
  datatype DiskState = DiskState(device: nat, lun: nat, size: nat, media: nat, letter: nat, createId: nat, state: nat)

  datatype StateResponse = StateResponse(instance: nat, bytes: nat, pending: nat, disks: seq<DiskState>)
}
