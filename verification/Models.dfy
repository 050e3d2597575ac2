// Channel definitions and decoded values: models.py.

module Models {
  import opened Bytes

  datatype DataType = Sensor | Status | Settings

  datatype ValueKind = Boolean | Integer | Number

  // bool, int and float; floats are reals here.
  datatype Value = BoolV(on: bool) | IntV(n: int) | FloatV(x: real)

  type Command = seq<byte>

  // Records with the same commands are read in one round trip.
  datatype RequestKey = RequestKey(command: Command, command2: Option<Command>)

  datatype Channel = Channel(
    id: string,
    key: RequestKey,
    dataType: DataType,
    position: nat,
    length: nat,
    scale: real,
    bitPosition: nat,
    min: real,
    max: real,
    step: real)
  {
    predicate Writable() {
      dataType == Settings
    }

    // A full byte constrained to 0 and 1.
    predicate IsSwitch() {
      scale == 1.0 && min == 0.0 && max == 1.0 && step == 0.0
    }

    function Kind(): ValueKind {
      if bitPosition > 0 then Boolean
      else if IsSwitch() then Boolean
      else if length == 4 then Integer
      else if scale != 1.0 then Number
      else Integer
    }
  }

  function KindOf(v: Value): ValueKind {
    match v
    case BoolV(_) => Boolean
    case IntV(_) => Integer
    case FloatV(_) => Number
  }
}
