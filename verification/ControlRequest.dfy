/** Miniport control requests: the SRB_IO_CONTROL envelope, request and response headers,
    capacity, and what the client accepts (driver/src/management/control_request.*,
    operation_state.cpp, cli/src/driver/windows/adapter/mod.rs). */
module ControlRequest {
  import opened Protocol
  import opened Driver
  import opened BigEndian
  import opened Scsi
  import opened Wire
  import opened Recovery

  const ENVELOPE_SIZE: nat := 28
  const HEADER_SIZE: nat := 24
  const PROTOCOL_VERSION: nat := 1
  const STATUS_INVALID_DEVICE_REQUEST: Status := 0xC000_0010 - U32_LIMIT

  /** "WISPDK01" */
  const SIGNATURE: seq<Byte> := [0x57, 0x49, 0x53, 0x50, 0x44, 0x4B, 0x30, 0x31]

  // Field widths of the wire structures; a header is structure size, version, operation,
  // flags or status, and correlation id.
  const HEADER: seq<nat> := [4, 4, 4, 4, 8]
  const CREATE_FIELDS: seq<nat> := [8, 4, 4, 2, 2, 4]
  const DELETE_FIELDS: seq<nat> := [4, 4]
  const OPERATION_FIELDS: seq<nat> := [8, 8]
  const RESPONSE_FIELDS: seq<nat> := [8, 8, 4, 4, 4, 4, 1, 1, 1, 1, 4]

  function CreateLayout(): seq<nat> { HEADER + CREATE_FIELDS }
  function DeleteLayout(): seq<nat> { HEADER + DELETE_FIELDS }
  function ReservedCreateLayout(): seq<nat> { HEADER + OPERATION_FIELDS + CREATE_FIELDS }
  function ReservedDeleteLayout(): seq<nat> { HEADER + OPERATION_FIELDS + DELETE_FIELDS }
  function ResponseLayout(): seq<nat> { HEADER + RESPONSE_FIELDS }

  lemma {:induction false} SizeOfConcat(a: seq<nat>, b: seq<nat>)
    ensures Size(a + b) == Size(a) + Size(b)
  {
    if a == [] {
      assert a + b == b;
    } else {
      assert (a + b)[1..] == a[1..] + b;
      SizeOfConcat(a[1..], b);
    }
  }

  lemma HeaderSize()
    ensures Size(HEADER) == HEADER_SIZE
  {
  }

  lemma FieldSizes()
    ensures Size(HEADER) == 24 && Size(CREATE_FIELDS) == 24 && Size(DELETE_FIELDS) == 8
    ensures Size(OPERATION_FIELDS) == 16 && Size(RESPONSE_FIELDS) == 40
  {
  }

  /** The layouts have the sizes of the shared ABI. */
  lemma LayoutSizes()
    ensures Size(HEADER) == 24 && Size(CreateLayout()) == 48 && Size(DeleteLayout()) == 32
    ensures Size(ReservedCreateLayout()) == 64 && Size(ReservedDeleteLayout()) == 48 && Size(ResponseLayout()) == 64
  {
    FieldSizes();
    SizeOfConcat(HEADER, CREATE_FIELDS);
    SizeOfConcat(HEADER, DELETE_FIELDS);
    SizeOfConcat(HEADER, OPERATION_FIELDS);
    SizeOfConcat(HEADER + OPERATION_FIELDS, CREATE_FIELDS);
    SizeOfConcat(HEADER + OPERATION_FIELDS, DELETE_FIELDS);
    SizeOfConcat(HEADER, RESPONSE_FIELDS);
  }

  // ------------------------------------------------------------- The driver reads

  /** ControlRequest::FromSrb on the data buffer of an SRB that moves `transfer` bytes. */
  predicate ValidEnvelope(b: seq<Byte>, transfer: nat)
    requires transfer <= |b|
  {
    && ENVELOPE_SIZE <= transfer
    && Field(b, 0, 4) == ENVELOPE_SIZE && b[4..12] == SIGNATURE
    && Field(b, 24, 4) <= transfer - ENVELOPE_SIZE
  }

  function ControlCode(b: seq<Byte>): nat
    requires ENVELOPE_SIZE <= |b|
  {
    Field(b, 16, 4)
  }

  /** The payload the envelope announces; its length is the capacity for the response. */
  function Payload(b: seq<Byte>, transfer: nat): seq<Byte>
    requires transfer <= |b| && ValidEnvelope(b, transfer)
  {
    b[ENVELOPE_SIZE..ENVELOPE_SIZE + Field(b, 24, 4)]
  }

  /** ReadAndValidateRequestHeader. */
  function ValidateHeader(payload: seq<Byte>, required: nat, expected: nat): Status {
    if |payload| < required || required < HEADER_SIZE then STATUS_BUFFER_TOO_SMALL
    else
      HeaderSize();
      var h := Unpack(HEADER, payload[..HEADER_SIZE]);
      if h[0] != required || h[1] != PROTOCOL_VERSION || h[2] != expected || h[3] != 0 then STATUS_INVALID_PARAMETER
      else STATUS_SUCCESS
  }

  /** ReadRequest: the fields are copied only after the header was validated. */
  function ReadRequest(payload: seq<Byte>, layout: seq<nat>, expected: nat): (r: (Status, seq<nat>))
    ensures NtSuccess(r.0) ==> |payload| >= Size(layout) && |r.1| == |layout|
  {
    var status := ValidateHeader(payload, Size(layout), expected);
    (status, if NtSuccess(status) then Unpack(layout, payload[..Size(layout)]) else [])
  }

  /** ReadOperationRequest: the response must fit before anything is changed. */
  function ReadOperation(payload: seq<Byte>, layout: seq<nat>, code: nat): (r: (Status, seq<nat>))
    ensures NtSuccess(r.0) ==> |r.1| == |layout|
  {
    var (status, values) := ReadRequest(payload, layout, code);
    if NtSuccess(status) && |payload| < Size(ResponseLayout()) then (STATUS_BUFFER_TOO_SMALL, []) else (status, values)
  }

  function ParamsOf(fields: seq<nat>): CreateParams
    requires |fields| == 6
  {
    CreateParams(fields[0], fields[1], fields[2], fields[3])
  }

  /** ValidateCreateRequest on its own copy of the request. */
  function ValidateCreate(payload: seq<Byte>): (r: (Status, seq<nat>))
    ensures NtSuccess(r.0) ==> |r.1| == 11
  {
    var (status, v) := ReadRequest(payload, CreateLayout(), CREATE_DISK);
    if !NtSuccess(status) then (status, [])
    else if !ValidCreate(ParamsOf(v[5..])) || v[9] != 0 || v[10] != 0 then (STATUS_INVALID_PARAMETER, [])
    else (status, v)
  }

  function ValidateDelete(payload: seq<Byte>): (r: (Status, seq<nat>))
    ensures NtSuccess(r.0) ==> |r.1| == 7
  {
    var (status, v) := ReadRequest(payload, DeleteLayout(), DELETE_DISK);
    if !NtSuccess(status) then (status, [])
    else if v[5] == 0 || v[6] != 0 then (STATUS_INVALID_PARAMETER, [])
    else (status, v)
  }

  /** The scratch request of the reserved handlers: the parameters under a rewritten header. */
  function Scratch(v: seq<nat>, size: nat, code: nat): seq<nat>
    requires |v| >= 7
  {
    [size, v[1], code, v[3], v[4]] + v[7..]
  }

  /** What a mutation request asks for, or why it is turned away. */
  datatype Parsed = Turned(status: Status) | Asks(cmd: Command)

  /** HandleReservedCreateControl, up to the submission. */
  function ParseReservedCreate(payload: seq<Byte>): Parsed {
    var (status, v) := ReadOperation(payload, ReservedCreateLayout(), CREATE_RESERVED);
    if !NtSuccess(status) then Turned(status)
    else
      var (checked, u) := ValidateCreate(Pack(CreateLayout(), Scratch(v, 48, CREATE_DISK)));
      if NtSuccess(checked) then Asks(Command(CREATE_RESERVED, Handle(v[5], v[6]), ParamsOf(u[5..]), 0))
      else Turned(checked)
  }

  /** HandleReservedDeleteControl, up to the submission. */
  function ParseReservedDelete(payload: seq<Byte>): Parsed {
    var (status, v) := ReadOperation(payload, ReservedDeleteLayout(), DELETE_RESERVED);
    if !NtSuccess(status) then Turned(status)
    else
      var (checked, u) := ValidateDelete(Pack(DeleteLayout(), Scratch(v, 32, DELETE_DISK)));
      if NtSuccess(checked) then Asks(Command(DELETE_RESERVED, Handle(v[5], v[6]), NO_CREATE, u[5]))
      else Turned(checked)
  }

  function ParseCreate(payload: seq<Byte>): Parsed {
    var (status, v) := ValidateCreate(payload);
    if NtSuccess(status) then Asks(Command(CREATE_DISK, Handle(0, 0), ParamsOf(v[5..]), 0)) else Turned(status)
  }

  function ParseDelete(payload: seq<Byte>): Parsed {
    var (status, v) := ValidateDelete(payload);
    if NtSuccess(status) then Asks(Command(DELETE_DISK, Handle(0, 0), NO_CREATE, v[5])) else Turned(status)
  }

  /** The mutation branches of DispatchControlRequest. */
  function Parse(payload: seq<Byte>, code: nat): Parsed {
    if code == CREATE_RESERVED then ParseReservedCreate(payload)
    else if code == DELETE_RESERVED then ParseReservedDelete(payload)
    else if code == CREATE_DISK then ParseCreate(payload)
    else if code == DELETE_DISK then ParseDelete(payload)
    else Turned(STATUS_INVALID_DEVICE_REQUEST)
  }

  /** The size of the full response to an admitted mutation. */
  function ResponseSize(code: nat): nat {
    if code == CREATE_DISK then 32 else if code == DELETE_DISK then HEADER_SIZE else 64
  }

  lemma UnpackedFits(widths: seq<nat>, bytes: seq<Byte>)
    requires Size(widths) <= |bytes|
    ensures Fits(widths, Unpack(widths, bytes))
  {
  }

  lemma DeleteFits(payload: seq<Byte>)
    requires NtSuccess(ValidateDelete(payload).0)
    ensures 0 < ValidateDelete(payload).1[5] < U32_LIMIT
  {
    LayoutSizes();
    Powers();
    UnpackedFits(DeleteLayout(), payload[..32]);
    assert DeleteLayout()[5] == 4;
  }

  lemma AdmittedCreate(payload: seq<Byte>)
    requires ParseCreate(payload).Asks?
    ensures ParseCreate(payload).cmd.Validated() && |payload| >= Size(CreateLayout())
  {
  }

  lemma AdmittedReservedCreate(payload: seq<Byte>)
    requires ParseReservedCreate(payload).Asks?
    ensures ParseReservedCreate(payload).cmd.Validated() && |payload| >= Size(ResponseLayout())
  {
  }

  lemma AdmittedDelete(payload: seq<Byte>)
    requires ParseDelete(payload).Asks?
    ensures ParseDelete(payload).cmd.Validated() && |payload| >= Size(DeleteLayout())
  {
    DeleteFits(payload);
  }

  /** The header at the front of a packed structure. */
  lemma HeaderUnpacks(widths: seq<nat>, values: seq<nat>, rest: seq<Byte>)
    requires Fits(HEADER + widths, values)
    ensures Size(HEADER) == HEADER_SIZE <= |Pack(HEADER + widths, values) + rest|
    ensures Unpack(HEADER, (Pack(HEADER + widths, values) + rest)[..HEADER_SIZE]) == values[..5]
  {
    HeaderSize();
    PackConcat(HEADER, widths, values);
    var front, back := Pack(HEADER, values[..5]), Pack(widths, values[5..]);
    assert (front + back + rest)[..HEADER_SIZE] == front + [];
    UnpackPack(HEADER, values[..5], []);
  }

  lemma HeaderReads(widths: seq<nat>, values: seq<nat>, rest: seq<Byte>, required: nat, expected: nat)
    requires Fits(HEADER + widths, values) && required >= HEADER_SIZE
    requires |Pack(HEADER + widths, values) + rest| >= required
    ensures ValidateHeader(Pack(HEADER + widths, values) + rest, required, expected) ==
              if values[0] != required || values[1] != PROTOCOL_VERSION || values[2] != expected || values[3] != 0
              then STATUS_INVALID_PARAMETER else STATUS_SUCCESS
  {
    HeaderUnpacks(widths, values, rest);
    var h := values[..5];
    assert h[0] == values[0] && h[1] == values[1] && h[2] == values[2] && h[3] == values[3];
  }

  lemma {:induction false} PackConcat(a: seq<nat>, b: seq<nat>, values: seq<nat>)
    requires |values| == |a| + |b|
    ensures Pack(a + b, values) == Pack(a, values[..|a|]) + Pack(b, values[|a|..])
  {
    if a == [] {
      assert a + b == b && values[0..] == values;
    } else {
      assert (a + b)[1..] == a[1..] + b;
      PackConcat(a[1..], b, values[1..]);
      assert values[..|a|][1..] == values[1..][..|a[1..]|] && values[1..][|a[1..]|..] == values[|a|..];
    }
  }

  /** A structure that was packed under a valid header reads back completely. */
  lemma RequestReads(widths: seq<nat>, values: seq<nat>, rest: seq<Byte>, expected: nat)
    requires Fits(HEADER + widths, values)
    requires values[0] == Size(HEADER + widths) && values[1] == PROTOCOL_VERSION && values[2] == expected
    requires values[3] == 0
    ensures ReadRequest(Pack(HEADER + widths, values) + rest, HEADER + widths, expected) == (STATUS_SUCCESS, values)
  {
    var layout := HEADER + widths;
    var bytes := Pack(layout, values) + rest;
    FieldSizes();
    SizeOfConcat(HEADER, widths);
    HeaderReads(widths, values, rest, Size(layout), expected);
    assert bytes[..Size(layout)] == Pack(layout, values) + [];
    UnpackPack(layout, values, []);
  }

  lemma ValidateCreateReads(u: seq<nat>)
    requires Fits(CreateLayout(), u) && u[0] == 48 && u[1] == PROTOCOL_VERSION && u[2] == CREATE_DISK && u[3] == 0
    ensures ValidateCreate(Pack(CreateLayout(), u)) ==
              if ValidCreate(ParamsOf(u[5..])) && u[9] == 0 && u[10] == 0 then (STATUS_SUCCESS, u)
              else (STATUS_INVALID_PARAMETER, [])
  {
    LayoutSizes();
    RequestReads(CREATE_FIELDS, u, [], CREATE_DISK);
    assert Pack(CreateLayout(), u) + [] == Pack(CreateLayout(), u);
  }

  lemma CreateScratchChecked(v: seq<nat>)
    requires Fits(ReservedCreateLayout(), v) && v[1] == PROTOCOL_VERSION && v[3] == 0
    ensures var u := Scratch(v, 48, CREATE_DISK);
            && |u| == |CreateLayout()| && u[5..] == v[7..]
            && ValidateCreate(Pack(CreateLayout(), u)) ==
                 if ValidCreate(ParamsOf(v[7..])) && v[11] == 0 && v[12] == 0 then (STATUS_SUCCESS, u)
                 else (STATUS_INVALID_PARAMETER, [])
  {
    var u := Scratch(v, 48, CREATE_DISK);
    ScratchFits(v, CREATE_FIELDS, 48, CREATE_DISK);
    ValidateCreateReads(u);
    assert u[5..] == v[7..] && u[9] == v[11] && u[10] == v[12];
  }

  lemma ValidateDeleteReads(u: seq<nat>)
    requires Fits(DeleteLayout(), u) && u[0] == 32 && u[1] == PROTOCOL_VERSION && u[2] == DELETE_DISK && u[3] == 0
    ensures ValidateDelete(Pack(DeleteLayout(), u)) ==
              if u[5] != 0 && u[6] == 0 then (STATUS_SUCCESS, u) else (STATUS_INVALID_PARAMETER, [])
  {
    LayoutSizes();
    RequestReads(DELETE_FIELDS, u, [], DELETE_DISK);
    assert Pack(DeleteLayout(), u) + [] == Pack(DeleteLayout(), u);
  }

  lemma DeleteScratchChecked(v: seq<nat>)
    requires Fits(ReservedDeleteLayout(), v) && v[1] == PROTOCOL_VERSION && v[3] == 0
    ensures var u := Scratch(v, 32, DELETE_DISK);
            && |u| == |DeleteLayout()| && u[5] == v[7]
            && ValidateDelete(Pack(DeleteLayout(), u)) ==
                 if v[7] != 0 && v[8] == 0 then (STATUS_SUCCESS, u) else (STATUS_INVALID_PARAMETER, [])
  {
    var u := Scratch(v, 32, DELETE_DISK);
    ScratchFits(v, DELETE_FIELDS, 32, DELETE_DISK);
    ValidateDeleteReads(u);
    assert u[5] == v[7] && u[6] == v[8];
  }

  /** The fields of a validated operation request. */
  lemma OperationFits(payload: seq<Byte>, rest: seq<nat>, code: nat)
    requires NtSuccess(ReadOperation(payload, HEADER + rest, code).0)
    ensures var v := ReadOperation(payload, HEADER + rest, code).1;
            Fits(HEADER + rest, v) && v[1] == PROTOCOL_VERSION && v[3] == 0
  {
    UnpackedFits(HEADER + rest, payload[..Size(HEADER + rest)]);
    OperationHeader(payload, rest, code);
  }

  lemma ReservedCreateFits(payload: seq<Byte>)
    requires NtSuccess(ReadOperation(payload, ReservedCreateLayout(), CREATE_RESERVED).0)
    ensures var v := ReadOperation(payload, ReservedCreateLayout(), CREATE_RESERVED).1;
            Fits(ReservedCreateLayout(), v) && v[1] == PROTOCOL_VERSION && v[3] == 0
  {
    assert ReservedCreateLayout() == HEADER + (OPERATION_FIELDS + CREATE_FIELDS);
    OperationFits(payload, OPERATION_FIELDS + CREATE_FIELDS, CREATE_RESERVED);
  }

  lemma ReservedDeleteFits(payload: seq<Byte>)
    requires NtSuccess(ReadOperation(payload, ReservedDeleteLayout(), DELETE_RESERVED).0)
    ensures var v := ReadOperation(payload, ReservedDeleteLayout(), DELETE_RESERVED).1;
            Fits(ReservedDeleteLayout(), v) && v[1] == PROTOCOL_VERSION && v[3] == 0
  {
    assert ReservedDeleteLayout() == HEADER + (OPERATION_FIELDS + DELETE_FIELDS);
    OperationFits(payload, OPERATION_FIELDS + DELETE_FIELDS, DELETE_RESERVED);
  }

  /** Re-validation through a scratch request turns a reserved create away exactly for its
      own field rules: the rewritten header never does. */
  lemma ReservedCreateParsed(payload: seq<Byte>)
    requires NtSuccess(ReadOperation(payload, ReservedCreateLayout(), CREATE_RESERVED).0)
    ensures var v := ReadOperation(payload, ReservedCreateLayout(), CREATE_RESERVED).1;
            ParseReservedCreate(payload) ==
              if ValidCreate(ParamsOf(v[7..])) && v[11] == 0 && v[12] == 0
              then Asks(Command(CREATE_RESERVED, Handle(v[5], v[6]), ParamsOf(v[7..]), 0))
              else Turned(STATUS_INVALID_PARAMETER)
  {
    ReservedCreateFits(payload);
    CreateScratchChecked(ReadOperation(payload, ReservedCreateLayout(), CREATE_RESERVED).1);
  }

  /** And a reserved delete exactly for a zero device or a non-zero reserved field. */
  lemma ReservedDeleteParsed(payload: seq<Byte>)
    requires NtSuccess(ReadOperation(payload, ReservedDeleteLayout(), DELETE_RESERVED).0)
    ensures var v := ReadOperation(payload, ReservedDeleteLayout(), DELETE_RESERVED).1;
            ParseReservedDelete(payload) ==
              if v[7] != 0 && v[8] == 0
              then Asks(Command(DELETE_RESERVED, Handle(v[5], v[6]), NO_CREATE, v[7]))
              else Turned(STATUS_INVALID_PARAMETER)
  {
    ReservedDeleteFits(payload);
    DeleteScratchChecked(ReadOperation(payload, ReservedDeleteLayout(), DELETE_RESERVED).1);
  }

  lemma DeviceFits(v: seq<nat>)
    requires Fits(ReservedDeleteLayout(), v)
    ensures v[7] < U32_LIMIT
  {
  }

  lemma DeleteIsValid(handle: Handle, device: nat)
    requires 0 < device < U32_LIMIT
    ensures Command(DELETE_RESERVED, handle, NO_CREATE, device).Validated()
  {
  }

  lemma OperationHasRoom(payload: seq<Byte>, layout: seq<nat>, code: nat)
    requires NtSuccess(ReadOperation(payload, layout, code).0)
    ensures |payload| >= Size(ResponseLayout())
  {
  }

  lemma AdmittedReservedDelete(payload: seq<Byte>)
    requires ParseReservedDelete(payload).Asks?
    ensures ParseReservedDelete(payload).cmd.Validated() && |payload| >= Size(ResponseLayout())
  {
    hide ReadOperation, ValidateDelete, Scratch, Fits;
    var v := ReadOperation(payload, ReservedDeleteLayout(), DELETE_RESERVED).1;
    ReservedDeleteFits(payload);
    ReservedDeleteParsed(payload);
    OperationHasRoom(payload, ReservedDeleteLayout(), DELETE_RESERVED);
    DeviceFits(v);
    DeleteIsValid(Handle(v[5], v[6]), v[7]);
  }

  /** The payload length that validation demands. */
  function Demanded(code: nat): nat {
    if code == CREATE_DISK then Size(CreateLayout())
    else if code == DELETE_DISK then Size(DeleteLayout())
    else Size(ResponseLayout())
  }

  lemma DemandedIsEnough(code: nat)
    ensures ResponseSize(code) <= Demanded(code)
  {
    hide Size;
    LayoutSizes();
  }

  lemma AdmittedRoom(payload: seq<Byte>, code: nat)
    requires Parse(payload, code).Asks?
    ensures Parse(payload, code).cmd.Validated() && Parse(payload, code).cmd.operation == code
    ensures |payload| >= Demanded(code)
  {
    if code == CREATE_DISK { AdmittedCreate(payload); }
    else if code == DELETE_DISK { AdmittedDelete(payload); }
    else if code == CREATE_RESERVED { AdmittedReservedCreate(payload); }
    else { AdmittedReservedDelete(payload); }
  }

  /** Every admitted mutation is one the driver's transition system accepts as validated,
      and its buffer has room for the full response. */
  lemma AdmittedMutation(payload: seq<Byte>, code: nat)
    requires Parse(payload, code).Asks?
    ensures Parse(payload, code).cmd.Validated() && Parse(payload, code).cmd.operation == code
    ensures |payload| >= ResponseSize(code)
  {
    AdmittedRoom(payload, code);
    DemandedIsEnough(code);
  }

  lemma ScratchFits(v: seq<nat>, widths: seq<nat>, size: nat, code: nat)
    requires Fits(HEADER + OPERATION_FIELDS + widths, v) && size < U32_LIMIT && code < U32_LIMIT
    ensures Fits(HEADER + widths, Scratch(v, size, code))
  {
  }

  lemma ValidatedHeader(payload: seq<Byte>, required: nat, expected: nat)
    requires NtSuccess(ValidateHeader(payload, required, expected))
    ensures Size(HEADER) == HEADER_SIZE <= required <= |payload|
    ensures var h := Unpack(HEADER, payload[..HEADER_SIZE]); h[1] == PROTOCOL_VERSION && h[3] == 0
  {
  }

  /** A validated operation request carries the protocol version and no flags. */
  lemma OperationHeader(payload: seq<Byte>, rest: seq<nat>, code: nat)
    requires NtSuccess(ReadOperation(payload, HEADER + rest, code).0)
    ensures var v := ReadOperation(payload, HEADER + rest, code).1; v[1] == PROTOCOL_VERSION && v[3] == 0
  {
    ValidatedHeader(payload, Size(HEADER + rest), code);
    HeaderIsFront(HEADER, rest, payload);
    var v := ReadOperation(payload, HEADER + rest, code).1;
    assert v[1] == v[..5][1] && v[3] == v[..5][3];
  }

  lemma HeaderIsFront(header: seq<nat>, rest: seq<nat>, payload: seq<Byte>)
    requires Size(header + rest) <= |payload|
    ensures Size(header) <= Size(header + rest)
    ensures Unpack(header + rest, payload[..Size(header + rest)])[..|header|] == Unpack(header, payload[..Size(header)])
  {
    UnpackConcat(header, rest, payload[..Size(header + rest)]);
    assert payload[..Size(header + rest)][..Size(header)] == payload[..Size(header)];
  }

  lemma {:induction false} UnpackConcat(a: seq<nat>, b: seq<nat>, bytes: seq<Byte>)
    requires Size(a + b) <= |bytes|
    ensures Size(a + b) == Size(a) + Size(b)
    ensures Unpack(a + b, bytes)[..|a|] == Unpack(a, bytes[..Size(a)])
  {
    SizeOfConcat(a, b);
    if a != [] {
      assert (a + b)[1..] == a[1..] + b;
      UnpackConcat(a[1..], b, bytes[a[0]..]);
      assert bytes[..Size(a)][..a[0]] == bytes[..a[0]];
      assert bytes[..Size(a)][a[0]..] == bytes[a[0]..][..Size(a[1..])];
    }
  }

  // ------------------------------------------------------------- The driver writes

  function Unsigned(status: Status): (n: nat)
    ensures n < U32_LIMIT && (n >= 0x8000_0000 <==> status < 0)
  {
    if status < 0 then status + U32_LIMIT else status
  }

  function Signed(n: nat): Status
    requires n < U32_LIMIT
    ensures Unsigned(Signed(n)) == n
  {
    if n >= 0x8000_0000 then n - U32_LIMIT else n
  }

  lemma SignedOfUnsigned(status: Status)
    ensures Signed(Unsigned(status)) == status
  {
  }

  /** A data buffer and the number of bytes the SRB moves. */
  datatype Sent = Sent(bytes: seq<Byte>, transfer: nat)

  /** PrepareCompletion. */
  function Completed(b: seq<Byte>, status: Status, n: nat): (r: Sent)
    requires ENVELOPE_SIZE <= |b|
    ensures |r.bytes| == |b|
  {
    Sent(SetField(SetField(b, 20, 4, Unsigned(status)), 24, 4, n), ENVELOPE_SIZE + n)
  }

  predicate HasCapacity(b: seq<Byte>) {
    ENVELOPE_SIZE <= |b| && ENVELOPE_SIZE + Field(b, 24, 4) <= |b|
  }

  /** WriteResponse: the whole response, or only an error code when the buffer is too small. */
  function ResponseWritten(b: seq<Byte>, response: seq<Byte>, status: Status): (r: Sent)
    requires HasCapacity(b)
    ensures |r.bytes| == |b|
  {
    if Field(b, 24, 4) < |response| then Completed(b, STATUS_BUFFER_TOO_SMALL, 0)
    else Completed(Overwrite(b, ENVELOPE_SIZE, response), status, |response|)
  }

  function ErrorHeader(code: nat, status: Status, correlation: nat): seq<nat> {
    [HEADER_SIZE, PROTOCOL_VERSION, code, Unsigned(status), correlation]
  }

  /** WriteError. */
  function ErrorWritten(b: seq<Byte>, code: nat, status: Status, correlation: nat): (r: Sent)
    requires HasCapacity(b)
    ensures |r.bytes| == |b|
  {
    if Field(b, 24, 4) >= HEADER_SIZE
    then ResponseWritten(b, Pack(HEADER, ErrorHeader(code, status, correlation)), status)
    else Completed(b, status, 0)
  }

  function ResponseValues(code: nat, correlation: nat, r: OperationResponse): seq<nat> {
    [64, PROTOCOL_VERSION, code, 0, correlation,
     r.instance, r.id, r.mutation, r.state, Unsigned(r.result), r.device, r.path, r.target, r.lun, 0, 0]
  }

  /** WriteError or WriteOperationResponse, by what the driver has to say. */
  function Respond(b: seq<Byte>, code: nat, correlation: nat, reply: Driver.Reply): (r: Sent)
    requires HasCapacity(b) && !reply.Legacy?
    ensures |r.bytes| == |b|
  {
    match reply
    case Error(status) => ErrorWritten(b, code, status, correlation)
    case Outcome(response) =>
      ResponseWritten(b, Pack(ResponseLayout(), ResponseValues(code, correlation, response)), STATUS_SUCCESS)
  }

  // ------------------------------------------------------------- The client accepts

  lemma FlagsFit(h: seq<nat>)
    requires Fits(HEADER, h)
    ensures |h| == 5 && h[3] < U32_LIMIT
  {
    Powers();
  }

  function ReturnedHeader(b: seq<Byte>): (h: seq<nat>)
    requires |b| >= ENVELOPE_SIZE + HEADER_SIZE
    ensures |h| == 5 && h[3] < U32_LIMIT
  {
    HeaderSize();
    UnpackedFits(HEADER, b[ENVELOPE_SIZE..ENVELOPE_SIZE + HEADER_SIZE]);
    FlagsFit(Unpack(HEADER, b[ENVELOPE_SIZE..ENVELOPE_SIZE + HEADER_SIZE]));
    Unpack(HEADER, b[ENVELOPE_SIZE..ENVELOPE_SIZE + HEADER_SIZE])
  }

  /** validate_response_header and the length checks of Adapter::send: what is wrong. */
  function HeaderError(h: seq<nat>, returnCode: nat, length: nat, returned: nat, code: nat,
                       correlation: nat): Option<ClientError>
    requires |h| == 5 && h[3] < U32_LIMIT && returnCode < U32_LIMIT
  {
    if h[1] != PROTOCOL_VERSION || h[2] != code || h[4] != correlation then Some(InvalidReply)
    else if Signed(h[3]) < 0 then Some(DriverRejection(Signed(h[3])))
    else if Signed(returnCode) < 0 then Some(DriverRejection(Signed(returnCode)))
    else if returned < ENVELOPE_SIZE + 64 || length < 64 || h[0] != 64 then Some(InvalidReply)
    else None
  }

  /** Adapter::send on the returned buffer, for an operation response. */
  function Accept(b: seq<Byte>, returned: nat, code: nat, correlation: nat): Answer
    requires |b| >= ENVELOPE_SIZE + 64 && returned <= |b|
  {
    if returned < ENVELOPE_SIZE + HEADER_SIZE || Field(b, 0, 4) != ENVELOPE_SIZE || b[4..12] != SIGNATURE
    then Failure(InvalidReply)
    else
      Powers();
      var error := HeaderError(ReturnedHeader(b), Field(b, 20, 4), Field(b, 24, 4), returned, code, correlation);
      if error.Some? then Failure(error.value) else ReturnedResponse(b)
  }

  lemma ResponseUnpacks(bytes: seq<Byte>)
    requires |bytes| == 64
    ensures Size(ResponseLayout()) == 64 && Fits(ResponseLayout(), Unpack(ResponseLayout(), bytes))
  {
    LayoutSizes();
    UnpackedFits(ResponseLayout(), bytes);
  }

  function ReturnedResponse(b: seq<Byte>): Answer
    requires |b| >= ENVELOPE_SIZE + 64
  {
    ResponseUnpacks(b[ENVELOPE_SIZE..ENVELOPE_SIZE + 64]);
    ResponseOf(Unpack(ResponseLayout(), b[ENVELOPE_SIZE..ENVELOPE_SIZE + 64]))
  }

  function ResponseOf(v: seq<nat>): Answer
    requires Fits(ResponseLayout(), v)
  {
    Powers();
    assert ResponseLayout()[9] == 4;
    Received(OperationResponse(v[5], v[6], v[7], v[8], Signed(v[9]), v[10], v[11], v[12], v[13]))
  }

  /** The values of a response fit their fields. */
  predicate Representable(r: OperationResponse) {
    && r.instance < U64_LIMIT && r.id < U64_LIMIT && r.mutation < U32_LIMIT && r.state < U32_LIMIT
    && r.device < U32_LIMIT && r.path < 256 && r.target < 256 && r.lun < 256
  }

  /** The client's buffer as the driver sees it: a valid envelope with room for any
      operation response. */
  predicate ClientBuffer(b: seq<Byte>) {
    && HasCapacity(b) && Field(b, 24, 4) >= 64
    && Field(b, 0, 4) == ENVELOPE_SIZE && b[4..12] == SIGNATURE
  }

  /** Completion leaves the envelope's identity and the payload alone. */
  lemma CompletedReads(b: seq<Byte>, status: Status, n: nat)
    requires ENVELOPE_SIZE <= |b| && n < U32_LIMIT
    ensures var r := Completed(b, status, n).bytes;
            && r[0..4] == b[0..4] && r[4..12] == b[4..12] && r[ENVELOPE_SIZE..] == b[ENVELOPE_SIZE..]
            && Field(r, 20, 4) == Unsigned(status) && Field(r, 24, 4) == n
  {
    Powers();
    var c := SetField(b, 20, 4, Unsigned(status));
    var r := SetField(c, 24, 4, n);
    FieldAfterSet(b, 20, 4, Unsigned(status));
    FieldAfterSet(c, 24, 4, n);
    OverwriteElsewhere(c, 24, Little(n, 4), 20, 24);
    OverwriteElsewhere(c, 24, Little(n, 4), 0, 4);
    OverwriteElsewhere(b, 20, Little(Unsigned(status), 4), 0, 4);
    OverwriteElsewhere(c, 24, Little(n, 4), 4, 12);
    OverwriteElsewhere(b, 20, Little(Unsigned(status), 4), 4, 12);
    OverwriteElsewhere(c, 24, Little(n, 4), ENVELOPE_SIZE, |b|);
    OverwriteElsewhere(b, 20, Little(Unsigned(status), 4), ENVELOPE_SIZE, |b|);
    assert r[ENVELOPE_SIZE..] == r[ENVELOPE_SIZE..|b|] && b[ENVELOPE_SIZE..] == b[ENVELOPE_SIZE..|b|];
  }

  /** A written response is found in the payload. */
  lemma WrittenReads(b: seq<Byte>, response: seq<Byte>, status: Status)
    requires ClientBuffer(b) && |response| <= Field(b, 24, 4)
    ensures var r := ResponseWritten(b, response, status);
            && r.transfer == ENVELOPE_SIZE + |response| <= |r.bytes|
            && Field(r.bytes, 0, 4) == ENVELOPE_SIZE && r.bytes[4..12] == SIGNATURE
            && r.bytes[ENVELOPE_SIZE..ENVELOPE_SIZE + |response|] == response
            && Field(r.bytes, 20, 4) == Unsigned(status) && Field(r.bytes, 24, 4) == |response|
  {
    var c := Overwrite(b, ENVELOPE_SIZE, response);
    Powers();
    CompletedReads(c, status, |response|);
    OverwriteElsewhere(b, ENVELOPE_SIZE, response, 0, 4);
    OverwriteElsewhere(b, ENVELOPE_SIZE, response, 4, 12);
    var r := ResponseWritten(b, response, status).bytes;
    assert c[ENVELOPE_SIZE..ENVELOPE_SIZE + |response|] == response;
    assert r[ENVELOPE_SIZE..ENVELOPE_SIZE + |response|] == r[ENVELOPE_SIZE..][..|response|];
    assert c[ENVELOPE_SIZE..ENVELOPE_SIZE + |response|] == c[ENVELOPE_SIZE..][..|response|];
  }

  /** The header at the front of a packed structure, as the client reads it. */
  lemma HeaderFields(b: seq<Byte>, widths: seq<nat>, values: seq<nat>)
    requires Fits(HEADER + widths, values) && |b| >= ENVELOPE_SIZE + Size(HEADER + widths)
    requires b[ENVELOPE_SIZE..ENVELOPE_SIZE + Size(HEADER + widths)] == Pack(HEADER + widths, values)
    ensures |b| >= ENVELOPE_SIZE + HEADER_SIZE && ReturnedHeader(b) == values[..5]
  {
    HeaderUnpacks(widths, values, []);
    var p := Pack(HEADER + widths, values);
    assert p + [] == p && b[ENVELOPE_SIZE..ENVELOPE_SIZE + HEADER_SIZE] == p[..HEADER_SIZE];
  }

  /** The transport tells the truth: what the client makes of the returned buffer is
      exactly the driver's reply. A failed status becomes a rejection with that status, and
      an operation response arrives field by field. */
  lemma ReplyArrives(b: seq<Byte>, code: nat, correlation: nat, reply: Driver.Reply)
    requires ClientBuffer(b) && code < U32_LIMIT && correlation < U64_LIMIT
    requires (reply.Error? && reply.status < 0) || (reply.Outcome? && Representable(reply.response))
    ensures var r := Respond(b, code, correlation, reply);
            r.transfer <= |r.bytes| && Accept(r.bytes, r.transfer, code, correlation) == AnswerOf(reply)
  {
    match reply
    case Error(status) => ErrorArrives(b, code, correlation, status);
    case Outcome(response) => OutcomeArrives(b, code, correlation, response);
  }

  lemma ErrorArrives(b: seq<Byte>, code: nat, correlation: nat, status: Status)
    requires ClientBuffer(b) && code < U32_LIMIT && correlation < U64_LIMIT && status < 0
    ensures var r := ErrorWritten(b, code, status, correlation);
            && r.transfer <= |r.bytes|
            && Accept(r.bytes, r.transfer, code, correlation) == Failure(DriverRejection(status))
  {
    var values := ErrorHeader(code, status, correlation);
    var r := ErrorWritten(b, code, status, correlation);
    ErrorFits(code, status, correlation);
    HeaderSize();
    WrittenReads(b, Pack(HEADER, values), status);
    assert HEADER + [] == HEADER;
    HeaderFields(r.bytes, [], values);
    assert values[..5] == values;
    SignedOfUnsigned(status);
  }

  lemma ErrorFits(code: nat, status: Status, correlation: nat)
    requires code < U32_LIMIT && correlation < U64_LIMIT
    ensures Fits(HEADER, ErrorHeader(code, status, correlation))
  {
  }

  lemma OutcomeArrives(b: seq<Byte>, code: nat, correlation: nat, response: OperationResponse)
    requires ClientBuffer(b) && code < U32_LIMIT && correlation < U64_LIMIT && Representable(response)
    ensures var packed := Pack(ResponseLayout(), ResponseValues(code, correlation, response));
            var r := ResponseWritten(b, packed, STATUS_SUCCESS);
            r.transfer <= |r.bytes| && Accept(r.bytes, r.transfer, code, correlation) == Received(response)
  {
    LayoutSizes();
    ResponseFits(code, correlation, response);
    PackedArrives(b, Pack(ResponseLayout(), ResponseValues(code, correlation, response)), code, correlation, response);
  }

  lemma PackedArrives(b: seq<Byte>, packed: seq<Byte>, code: nat, correlation: nat, response: OperationResponse)
    requires ClientBuffer(b) && |packed| == 64
    requires packed == Pack(ResponseLayout(), ResponseValues(code, correlation, response))
    requires Fits(ResponseLayout(), ResponseValues(code, correlation, response)) && Size(ResponseLayout()) == 64
    ensures var r := ResponseWritten(b, packed, STATUS_SUCCESS);
            r.transfer <= |r.bytes| && Accept(r.bytes, r.transfer, code, correlation) == Received(response)
  {
    var r := ResponseWritten(b, packed, STATUS_SUCCESS);
    WrittenReads(b, packed, STATUS_SUCCESS);
    HeaderReturns(r.bytes, code, correlation, response);
    ResponseReturns(r.bytes, code, correlation, response);
    SuccessAccepted(r, code, correlation, response);
  }

  lemma HeaderReturns(b: seq<Byte>, code: nat, correlation: nat, response: OperationResponse)
    requires Fits(ResponseLayout(), ResponseValues(code, correlation, response)) && |b| >= ENVELOPE_SIZE + 64
    requires Size(ResponseLayout()) == 64
    requires b[ENVELOPE_SIZE..ENVELOPE_SIZE + 64] == Pack(ResponseLayout(), ResponseValues(code, correlation, response))
    ensures ReturnedHeader(b) == [64, PROTOCOL_VERSION, code, 0, correlation]
  {
    var values := ResponseValues(code, correlation, response);
    HeaderFields(b, RESPONSE_FIELDS, values);
    assert values[..5] == [64, PROTOCOL_VERSION, code, 0, correlation];
  }

  lemma SuccessAccepted(r: Sent, code: nat, correlation: nat, response: OperationResponse)
    requires r.transfer == ENVELOPE_SIZE + 64 <= |r.bytes|
    requires Field(r.bytes, 0, 4) == ENVELOPE_SIZE && r.bytes[4..12] == SIGNATURE
    requires Field(r.bytes, 20, 4) == 0 && Field(r.bytes, 24, 4) == 64
    requires ReturnedHeader(r.bytes) == [64, PROTOCOL_VERSION, code, 0, correlation]
    requires ReturnedResponse(r.bytes) == Received(response)
    ensures Accept(r.bytes, r.transfer, code, correlation) == Received(response)
  {
  }

  lemma ResponseReturns(b: seq<Byte>, code: nat, correlation: nat, response: OperationResponse)
    requires Fits(ResponseLayout(), ResponseValues(code, correlation, response)) && |b| >= ENVELOPE_SIZE + 64
    requires b[ENVELOPE_SIZE..ENVELOPE_SIZE + 64] == Pack(ResponseLayout(), ResponseValues(code, correlation, response))
    ensures ReturnedResponse(b) == Received(response)
  {
    var packed := Pack(ResponseLayout(), ResponseValues(code, correlation, response));
    assert packed + [] == packed;
    UnpackPack(ResponseLayout(), ResponseValues(code, correlation, response), []);
    ResponseDecoded(code, correlation, response);
  }

  lemma ResponseFits(code: nat, correlation: nat, r: OperationResponse)
    requires code < U32_LIMIT && correlation < U64_LIMIT && Representable(r)
    ensures Fits(ResponseLayout(), ResponseValues(code, correlation, r))
  {
    Powers();
    assert Pow256(1) == 256 * Pow256(0);
  }

  lemma ResponseDecoded(code: nat, correlation: nat, r: OperationResponse)
    requires Fits(ResponseLayout(), ResponseValues(code, correlation, r))
    ensures ResponseOf(ResponseValues(code, correlation, r)) == Received(r)
  {
  }

  // --------------------------------------------------------------- The client sends

  const CONTROL_BUFFER_SIZE: nat := 1024

  /** The envelope Adapter::send builds. */
  function Envelope(code: nat): (e: seq<Byte>)
    ensures |e| == ENVELOPE_SIZE
  {
    Little(ENVELOPE_SIZE, 4) + SIGNATURE + Little(30, 4) + Little(code, 4) + Little(0, 4)
      + Little(CONTROL_BUFFER_SIZE - ENVELOPE_SIZE, 4)
  }

  function SendBuffer(code: nat, request: seq<Byte>): (b: seq<Byte>)
    requires ENVELOPE_SIZE + |request| <= CONTROL_BUFFER_SIZE
    ensures |b| == CONTROL_BUFFER_SIZE
  {
    Envelope(code) + request + Zeros(CONTROL_BUFFER_SIZE - ENVELOPE_SIZE - |request|)
  }

  lemma EnvelopeReads(e: seq<Byte>, code: nat, rest: seq<Byte>)
    requires e == Envelope(code) && code < U32_LIMIT
    ensures var b := e + rest;
            && Field(b, 0, 4) == ENVELOPE_SIZE && b[4..12] == SIGNATURE
            && ControlCode(b) == code && Field(b, 24, 4) == CONTROL_BUFFER_SIZE - ENVELOPE_SIZE
            && b[ENVELOPE_SIZE..] == rest
  {
    hide Little, Number;
    var b := e + rest;
    Powers();
    NumberOfLittle(ENVELOPE_SIZE, 4);
    NumberOfLittle(code, 4);
    NumberOfLittle(CONTROL_BUFFER_SIZE - ENVELOPE_SIZE, 4);
    assert b[0..4] == Little(ENVELOPE_SIZE, 4);
    assert b[16..20] == Little(code, 4);
    assert b[24..28] == Little(CONTROL_BUFFER_SIZE - ENVELOPE_SIZE, 4);
  }

  /** The driver finds the request it was sent, in an envelope with room for any response. */
  lemma RequestArrives(code: nat, request: seq<Byte>)
    requires ENVELOPE_SIZE + |request| <= CONTROL_BUFFER_SIZE && code < U32_LIMIT
    ensures var b := SendBuffer(code, request);
            && ValidEnvelope(b, CONTROL_BUFFER_SIZE) && ClientBuffer(b) && ControlCode(b) == code
            && Payload(b, CONTROL_BUFFER_SIZE) == request + Zeros(CONTROL_BUFFER_SIZE - ENVELOPE_SIZE - |request|)
  {
    var e := Envelope(code);
    var rest := request + Zeros(CONTROL_BUFFER_SIZE - ENVELOPE_SIZE - |request|);
    EnvelopeReads(e, code, rest);
    assert SendBuffer(code, request) == e + rest;
    assert (e + rest)[ENVELOPE_SIZE..ENVELOPE_SIZE + |rest|] == rest;
  }

  function CreateValues(handle: Handle, p: CreateParams, correlation: nat): seq<nat> {
    [64, PROTOCOL_VERSION, CREATE_RESERVED, 0, correlation, handle.instance, handle.id,
     p.size, p.sector, p.media, p.letter, 0, 0]
  }

  function DeleteValues(handle: Handle, device: nat, correlation: nat): seq<nat> {
    [48, PROTOCOL_VERSION, DELETE_RESERVED, 0, correlation, handle.instance, handle.id, device, 0]
  }

  /** A reserved create the client sends is, byte for byte, the command the driver submits. */
  lemma CreateArrives(handle: Handle, p: CreateParams, correlation: nat)
    requires handle.instance < U64_LIMIT && handle.id < U64_LIMIT && correlation < U64_LIMIT && ValidCreate(p)
    ensures Size(ReservedCreateLayout()) == 64
    ensures var b := SendBuffer(CREATE_RESERVED, Pack(ReservedCreateLayout(), CreateValues(handle, p, correlation)));
            && ValidEnvelope(b, CONTROL_BUFFER_SIZE) && ControlCode(b) == CREATE_RESERVED
            && Parse(Payload(b, CONTROL_BUFFER_SIZE), CREATE_RESERVED) == Asks(Command(CREATE_RESERVED, handle, p, 0))
  {
    LayoutSizes();
    RequestArrives(CREATE_RESERVED, Pack(ReservedCreateLayout(), CreateValues(handle, p, correlation)));
    CreatePayloadParsed(handle, p, correlation, Zeros(CONTROL_BUFFER_SIZE - ENVELOPE_SIZE - 64));
  }

  lemma CreatePayloadParsed(handle: Handle, p: CreateParams, correlation: nat, rest: seq<Byte>)
    requires handle.instance < U64_LIMIT && handle.id < U64_LIMIT && correlation < U64_LIMIT && ValidCreate(p)
    ensures ParseReservedCreate(Pack(ReservedCreateLayout(), CreateValues(handle, p, correlation)) + rest)
         == Asks(Command(CREATE_RESERVED, handle, p, 0))
  {
    hide Size;
    var v := CreateValues(handle, p, correlation);
    CreateValuesFit(handle, p, correlation);
    ReservedCreateSize();
    assert ReservedCreateLayout() == HEADER + (OPERATION_FIELDS + CREATE_FIELDS);
    OperationReads(OPERATION_FIELDS + CREATE_FIELDS, v, rest, CREATE_RESERVED);
    CreateScratchChecked(v);
  }

  lemma ReservedCreateSize()
    ensures Size(ReservedCreateLayout()) == 64
  {
    hide Size;
    LayoutSizes();
  }

  lemma CreateValuesFit(handle: Handle, p: CreateParams, correlation: nat)
    requires handle.instance < U64_LIMIT && handle.id < U64_LIMIT && correlation < U64_LIMIT && ValidCreate(p)
    ensures Fits(ReservedCreateLayout(), CreateValues(handle, p, correlation))
    ensures ParamsOf(CreateValues(handle, p, correlation)[7..]) == p
  {
    Powers();
    assert CreateValues(handle, p, correlation)[7..] == [p.size, p.sector, p.media, p.letter, 0, 0];
  }

  lemma OperationReads(widths: seq<nat>, v: seq<nat>, rest: seq<Byte>, code: nat)
    requires Fits(HEADER + widths, v) && Size(HEADER + widths) + |rest| >= 64
    requires v[0] == Size(HEADER + widths) && v[1] == PROTOCOL_VERSION && v[2] == code && v[3] == 0
    ensures ReadOperation(Pack(HEADER + widths, v) + rest, HEADER + widths, code) == (STATUS_SUCCESS, v)
  {
    LayoutSizes();
    RequestReads(widths, v, rest, code);
  }

  /** And so is a reserved delete. */
  lemma DeleteArrives(handle: Handle, device: nat, correlation: nat)
    requires handle.instance < U64_LIMIT && handle.id < U64_LIMIT && correlation < U64_LIMIT && 0 < device < U32_LIMIT
    ensures Size(ReservedDeleteLayout()) == 48
    ensures var b := SendBuffer(DELETE_RESERVED,
              Pack(ReservedDeleteLayout(), DeleteValues(handle, device, correlation)));
            && ValidEnvelope(b, CONTROL_BUFFER_SIZE) && ControlCode(b) == DELETE_RESERVED
            && Parse(Payload(b, CONTROL_BUFFER_SIZE), DELETE_RESERVED)
              == Asks(Command(DELETE_RESERVED, handle, NO_CREATE, device))
  {
    hide Size;
    LayoutSizes();
    RequestArrives(DELETE_RESERVED, Pack(ReservedDeleteLayout(), DeleteValues(handle, device, correlation)));
    DeletePayloadParsed(handle, device, correlation, Zeros(CONTROL_BUFFER_SIZE - ENVELOPE_SIZE - 48));
  }

  lemma DeletePayloadParsed(handle: Handle, device: nat, correlation: nat, rest: seq<Byte>)
    requires handle.instance < U64_LIMIT && handle.id < U64_LIMIT && correlation < U64_LIMIT && 0 < device < U32_LIMIT
    requires |rest| >= 16
    ensures ParseReservedDelete(Pack(ReservedDeleteLayout(), DeleteValues(handle, device, correlation)) + rest)
         == Asks(Command(DELETE_RESERVED, handle, NO_CREATE, device))
  {
    hide Size;
    var v := DeleteValues(handle, device, correlation);
    DeleteValuesFit(handle, device, correlation);
    ReservedDeleteSize();
    assert ReservedDeleteLayout() == HEADER + (OPERATION_FIELDS + DELETE_FIELDS);
    OperationReads(OPERATION_FIELDS + DELETE_FIELDS, v, rest, DELETE_RESERVED);
    DeleteScratchChecked(v);
  }

  lemma ReservedDeleteSize()
    ensures Size(ReservedDeleteLayout()) == 48
  {
    LayoutSizes();
  }

  lemma DeleteValuesFit(handle: Handle, device: nat, correlation: nat)
    requires handle.instance < U64_LIMIT && handle.id < U64_LIMIT && correlation < U64_LIMIT && device < U32_LIMIT
    ensures Fits(ReservedDeleteLayout(), DeleteValues(handle, device, correlation))
  {
  }

  // ------------------------------------------------------------ The buffer in place

  /** The data buffer of a control SRB, changed in place. */
  class ControlBuffer {
    const data: array<Byte>
    var dataTransferLength: nat

    constructor (data: array<Byte>, transfer: nat)
      requires transfer <= data.Length
      ensures this.data == data && dataTransferLength == transfer
    {
      this.data, dataTransferLength := data, transfer;
    }

    method FromSrb() returns (ok: bool)
      requires dataTransferLength <= data.Length
      ensures ok <==> ValidEnvelope(data[..], dataTransferLength)
    {
      if dataTransferLength < ENVELOPE_SIZE { return false; }
      ok := Field(data[..], 0, 4) == ENVELOPE_SIZE && data[..][4..12] == SIGNATURE
            && Field(data[..], 24, 4) <= dataTransferLength - ENVELOPE_SIZE;
    }

    /** Stores a 32-bit field. */
    method Store(at: nat, value: nat)
      requires at + 4 <= data.Length
      modifies data
      ensures data[..] == SetField(old(data[..]), at, 4, value)
    {
      ghost var was := data[..];
      data[at] := value % 256;
      data[at + 1] := value / 256 % 256;
      data[at + 2] := value / 256 / 256 % 256;
      data[at + 3] := value / 256 / 256 / 256 % 256;
      Little4(value);
      assert Little(value, 4) == [data[at], data[at + 1], data[at + 2], data[at + 3]];
      assert data[..] == was[..at] + Little(value, 4) + was[at + 4..];
    }

    method PrepareCompletion(status: Status, payloadLength: nat)
      requires ENVELOPE_SIZE <= data.Length
      modifies this, data
      ensures Sent(data[..], dataTransferLength) == Completed(old(data[..]), status, payloadLength)
    {
      Store(20, Unsigned(status));
      Store(24, payloadLength);
      dataTransferLength := ENVELOPE_SIZE + payloadLength;
    }

    method WriteResponse(response: array<Byte>, status: Status)
      requires HasCapacity(data[..]) && response != data
      modifies this, data
      ensures Sent(data[..], dataTransferLength) == ResponseWritten(old(data[..]), response[..], status)
    {
      if Field(data[..], 24, 4) < response.Length {
        PrepareCompletion(STATUS_BUFFER_TOO_SMALL, 0);
        return;
      }
      CopyBytes(response, 0, data, ENVELOPE_SIZE, response.Length);
      assert response[0..response.Length] == response[..];
      PrepareCompletion(status, response.Length);
    }

    method WriteError(code: nat, status: Status, correlation: nat)
      requires HasCapacity(data[..])
      modifies this, data
      ensures Sent(data[..], dataTransferLength) == ErrorWritten(old(data[..]), code, status, correlation)
    {
      if Field(data[..], 24, 4) >= HEADER_SIZE {
        var bytes := Pack(HEADER, ErrorHeader(code, status, correlation));
        var response := new Byte[|bytes|](i requires 0 <= i < |bytes| => bytes[i]);
        assert response[..] == bytes;
        WriteResponse(response, status);
        return;
      }
      PrepareCompletion(status, 0);
    }
  }
}
