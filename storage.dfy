/**
 * The persistent records in flash (src/storage.rs): where each record lives,
 * the version/init-tag check at boot, the defaults written on
 * (re)initialisation, and `write_flash`, which reports success whatever the
 * flash driver says.  Records are kept abstract: the flash is a map from a
 * record's offset to the record stored there.
 */
module Storage {
  import opened Wrappers

  // Record sizes of the riscv32 layout: a u32 is 4 bytes; heapless::String<N>
  // is a 4-byte length followed by N bytes; a struct is padded to 4 bytes.
  const VERSION_SIZE: nat := 8     // two u32
  const WIFI_SIZE: nat := 76       // two String<32> and a bool: 36 + 36 + 1, padded
  const WEATHER_SIZE: nat := 68    // one String<64>
  const OTHER_SIZE: nat := 68      // one String<64>

  const NVS_OFFSET: nat := 0x9000
  const VERSION_OFFSET: nat := NVS_OFFSET + 0x00
  const WIFI_OFFSET: nat := VERSION_OFFSET + VERSION_SIZE
  const WEATHER_OFFSET: nat := WIFI_OFFSET + WIFI_SIZE
  // The source sizes the weather slot with the size of the Wi-Fi record.
  const OTHER_OFFSET: nat := WEATHER_OFFSET + WIFI_SIZE

  const INIT_TAG: nat := 0x1234abcd
  const STORAGE_VERSION: nat := 1

  datatype VersionStorage = VersionStorage(version: nat, initTag: nat)
  datatype WifiStorage = WifiStorage(ssid: string, password: string, finish: bool)
  datatype TokenStorage = TokenStorage(token: string)

  datatype Record =
    | Version(version: VersionStorage)
    | Wifi(wifi: WifiStorage)
    | Weather(weather: TokenStorage)
    | Other(other: TokenStorage)

  datatype FlashError = FlashError

  type Flash = map<nat, Record>

  /** The fixed offset of each kind of record. */
  function OffsetOf(r: Record): nat {
    match r
    case Version(_) => VERSION_OFFSET
    case Wifi(_) => WIFI_OFFSET
    case Weather(_) => WEATHER_OFFSET
    case Other(_) => OTHER_OFFSET
  }

  function SizeOf(r: Record): nat {
    match r
    case Version(_) => VERSION_SIZE
    case Wifi(_) => WIFI_SIZE
    case Weather(_) => WEATHER_SIZE
    case Other(_) => OTHER_SIZE
  }

  /** The byte range [OffsetOf, OffsetOf + SizeOf) of two different kinds never overlap. */
  lemma RecordsDisjoint(a: Record, b: Record)
    requires OffsetOf(a) != OffsetOf(b)
    ensures OffsetOf(a) + SizeOf(a) <= OffsetOf(b) || OffsetOf(b) + SizeOf(b) <= OffsetOf(a)
  {
  }

  lemma LayoutOffsets()
    ensures WIFI_OFFSET == 0x9008 && WEATHER_OFFSET == 0x9054 && OTHER_OFFSET == 0x90A0
    ensures OTHER_OFFSET - WEATHER_OFFSET == WIFI_SIZE > WEATHER_SIZE
  {
  }

  /** Each record slot holds a record of its own kind (whatever bytes are there decode as one). */
  ghost predicate Laid(f: Flash) {
    && VERSION_OFFSET in f && f[VERSION_OFFSET].Version?
    && WIFI_OFFSET in f && f[WIFI_OFFSET].Wifi?
    && WEATHER_OFFSET in f && f[WEATHER_OFFSET].Weather?
    && OTHER_OFFSET in f && f[OTHER_OFFSET].Other?
  }

  /**
   * `NvsStorage::write`, through `write_flash`: the record is stored at its
   * offset when the driver's write succeeds (`hwOk`), and the call reports
   * Ok in every case.
   */
  function Write(f: Flash, r: Record, hwOk: bool): (res: (Flash, Result<(), FlashError>))
    ensures res.1 == Ok(())
    ensures hwOk ==> res.0 == f[OffsetOf(r) := r]
    ensures !hwOk ==> res.0 == f
    ensures Laid(f) ==> Laid(res.0)
  {
    ((if hwOk then f[OffsetOf(r) := r] else f), Ok(()))
  }

  /** `NvsStorage::read` of the record at `offset`: Err exactly when the driver's read fails. */
  function Read(f: Flash, offset: nat, hwOk: bool): (res: Result<Record, FlashError>)
    requires offset in f
    ensures res.Ok? <==> hwOk
    ensures res.Ok? ==> res.value == f[offset]
  {
    if hwOk then Ok(f[offset]) else Err(FlashError)
  }

  /** Reading a record back after a successful write returns that record. */
  lemma ReadAfterWrite(f: Flash, r: Record)
    ensures Read(Write(f, r, true).0, OffsetOf(r), true) == Ok(r)
  {
  }

  /** A write never changes the other slots. */
  lemma WriteLeavesOthers(f: Flash, r: Record, hwOk: bool, offset: nat)
    requires offset in f && offset != OffsetOf(r)
    ensures offset in Write(f, r, hwOk).0 && Write(f, r, hwOk).0[offset] == f[offset]
  {
  }

  const DEFAULT_VERSION := VersionStorage(STORAGE_VERSION, INIT_TAG)
  const DEFAULT_WIFI := WifiStorage("", "", false)
  const DEFAULT_TOKEN := TokenStorage("")

  /** Driver results of the four writes of `init_storage_area`, in order. */
  datatype InitWrites = InitWrites(version: bool, wifi: bool, weather: bool, other: bool)

  /** The flash after `init_storage_area`: the four default records, each where its write succeeded. */
  function Initialised(f: Flash, w: InitWrites): (g: Flash)
    ensures Laid(f) ==> Laid(g)
    ensures w.version ==> VERSION_OFFSET in g && g[VERSION_OFFSET] == Version(DEFAULT_VERSION)
    ensures w.wifi ==> WIFI_OFFSET in g && g[WIFI_OFFSET] == Wifi(DEFAULT_WIFI)
    ensures w.weather ==> WEATHER_OFFSET in g && g[WEATHER_OFFSET] == Weather(DEFAULT_TOKEN)
    ensures w.other ==> OTHER_OFFSET in g && g[OTHER_OFFSET] == Other(DEFAULT_TOKEN)
    ensures forall o :: o in f && !w.version && !w.wifi && !w.weather && !w.other ==> o in g && g[o] == f[o]
  {
    var f1 := Write(f, Version(DEFAULT_VERSION), w.version).0;
    var f2 := Write(f1, Wifi(DEFAULT_WIFI), w.wifi).0;
    var f3 := Write(f2, Weather(DEFAULT_TOKEN), w.weather).0;
    Write(f3, Other(DEFAULT_TOKEN), w.other).0
  }

  /** After a fully successful initialisation the version record passes the boot check. */
  lemma InitialisedPassesCheck(f: Flash)
    ensures var g := Initialised(f, InitWrites(true, true, true, true));
      Read(g, VERSION_OFFSET, true) == Ok(Version(VersionStorage(1, INIT_TAG))) &&
      Read(g, WIFI_OFFSET, true) == Ok(Wifi(WifiStorage("", "", false)))
  {
  }

  datatype BootOutcome = Booted | Panicked

  /** The flash and the shared `WIFI_INFO` cell. */
  class Nvs {
    var flash: Flash
    var wifiInfo: Option<WifiStorage>

    ghost predicate Valid() reads this {
      Laid(flash)
    }

    constructor (contents: Flash)
      requires Laid(contents)
      ensures Valid() && flash == contents && wifiInfo == None
    {
      flash := contents;
      wifiInfo := None;
    }

    /** `init_storage_area`: write the default version, Wi-Fi, weather and other records. */
    method InitStorageArea(w: InitWrites)
      requires Valid()
      modifies this
      ensures Valid()
      ensures flash == Initialised(old(flash), w) && wifiInfo == old(wifiInfo)
    {
      var r;
      var version := VersionStorage(0, 0);
      version := version.(version := STORAGE_VERSION);
      version := version.(initTag := INIT_TAG);
      assert version == DEFAULT_VERSION;
      r := WriteRecord(Version(version), w.version);
      var wifi := WifiStorage("", "", false);
      wifi := wifi.(finish := false);
      r := WriteRecord(Wifi(wifi), w.wifi);
      r := WriteRecord(Weather(TokenStorage("")), w.weather);
      r := WriteRecord(Other(TokenStorage("")), w.other);
    }

    /** `NvsStorage::write` on the shared flash. */
    method WriteRecord(rec: Record, hwOk: bool) returns (r: Result<(), FlashError>)
      requires Valid()
      modifies this
      ensures Valid()
      ensures (flash, r) == Write(old(flash), rec, hwOk) && wifiInfo == old(wifiInfo)
    {
      if hwOk {
        flash := flash[OffsetOf(rec) := rec];
      }
      r := Ok(());
    }

    /**
     * `enter_process`: read the version record; a wrong init tag
     * re-initialises the storage and then the Wi-Fi record is loaded into
     * `WIFI_INFO` (its `unwrap` panics when that read fails); an unreadable
     * version record re-initialises and leaves `WIFI_INFO` as it was.
     */
    method EnterProcess(versionReadOk: bool, wifiReadOk: bool, w: InitWrites) returns (out: BootOutcome)
      requires Valid()
      modifies this
      ensures Valid()
      ensures !versionReadOk ==>
        out == Booted && flash == Initialised(old(flash), w) && wifiInfo == old(wifiInfo)
      ensures versionReadOk ==>
        var tagOk := old(flash)[VERSION_OFFSET].version.initTag == INIT_TAG;
        && flash == (if tagOk then old(flash) else Initialised(old(flash), w))
        && (out == Booted <==> wifiReadOk)
        && (wifiReadOk ==> wifiInfo == Some(flash[WIFI_OFFSET].wifi))
        && (!wifiReadOk ==> wifiInfo == old(wifiInfo))
    {
      var v := Read(flash, VERSION_OFFSET, versionReadOk);
      match v {
        case Ok(rec) =>
          if rec.version.initTag != INIT_TAG {
            InitStorageArea(w);
          }
          var wifi := Read(flash, WIFI_OFFSET, wifiReadOk);
          if wifi.Err? {
            return Panicked;
          }
          wifiInfo := Some(wifi.value.wifi);
          out := Booted;
        case Err(_) =>
          InitStorageArea(w);
          out := Booted;
      }
    }
  }
}
