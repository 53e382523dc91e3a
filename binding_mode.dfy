/** Binding modes (BindingMode.cs): the library's portable enumeration, the three
    toolkits' own enumerations with their numeric values, and the conversion
    between them, which goes through the member's name. */
module BindingModes {
  import opened Wrappers

  /** The portable mode: OneWay = 0, OneTime = 1, TwoWay = 2. */
  datatype BindingMode = OneWay | OneTime | TwoWay

  /** `Avalonia.Data.BindingMode`. */
  datatype AvaloniaBindingMode = AvaloniaDefault | AvaloniaOneWay | AvaloniaTwoWay | AvaloniaOneTime | AvaloniaOneWayToSource

  /** `System.Windows.Data.BindingMode`. */
  datatype WpfBindingMode = WpfTwoWay | WpfOneWay | WpfOneTime | WpfOneWayToSource | WpfDefault

  /** `Microsoft.UI.Xaml.Data.BindingMode` and `Windows.UI.Xaml.Data.BindingMode`. */
  datatype WinUIBindingMode = WinUIOneWay | WinUIOneTime | WinUITwoWay

  function PortableValue(m: BindingMode): int {
    match m
    case OneWay => 0
    case OneTime => 1
    case TwoWay => 2
  }

  function AvaloniaValue(m: AvaloniaBindingMode): int {
    match m
    case AvaloniaDefault => 0
    case AvaloniaOneWay => 1
    case AvaloniaTwoWay => 2
    case AvaloniaOneTime => 3
    case AvaloniaOneWayToSource => 4
  }

  function WpfValue(m: WpfBindingMode): int {
    match m
    case WpfTwoWay => 0
    case WpfOneWay => 1
    case WpfOneTime => 2
    case WpfOneWayToSource => 3
    case WpfDefault => 4
  }

  function WinUIValue(m: WinUIBindingMode): int {
    match m
    case WinUIOneWay => 1
    case WinUIOneTime => 2
    case WinUITwoWay => 3
  }

  /** `ToString()` of a portable mode: its member name. */
  function PortableName(m: BindingMode): string {
    match m
    case OneWay => "OneWay"
    case OneTime => "OneTime"
    case TwoWay => "TwoWay"
  }

  /** `Enum.Parse` into each local enumeration: the member of that name, or an
      `ArgumentException` for a name the enumeration does not have. */
  function ParseAvalonia(text: string): Result<AvaloniaBindingMode> {
    if text == "Default" then Ok(AvaloniaDefault)
    else if text == "OneWay" then Ok(AvaloniaOneWay)
    else if text == "TwoWay" then Ok(AvaloniaTwoWay)
    else if text == "OneTime" then Ok(AvaloniaOneTime)
    else if text == "OneWayToSource" then Ok(AvaloniaOneWayToSource)
    else Err(Argument("Requested value was not found."))
  }

  function ParseWpf(text: string): Result<WpfBindingMode> {
    if text == "TwoWay" then Ok(WpfTwoWay)
    else if text == "OneWay" then Ok(WpfOneWay)
    else if text == "OneTime" then Ok(WpfOneTime)
    else if text == "OneWayToSource" then Ok(WpfOneWayToSource)
    else if text == "Default" then Ok(WpfDefault)
    else Err(Argument("Requested value was not found."))
  }

  function ParseWinUI(text: string): Result<WinUIBindingMode> {
    if text == "OneWay" then Ok(WinUIOneWay)
    else if text == "OneTime" then Ok(WinUIOneTime)
    else if text == "TwoWay" then Ok(WinUITwoWay)
    else Err(Argument("Requested value was not found."))
  }

  /** `ToLocal<T>` for each of the three target enumerations. */
  function ToAvalonia(m: BindingMode): Result<AvaloniaBindingMode> { ParseAvalonia(PortableName(m)) }
  function ToWpf(m: BindingMode): Result<WpfBindingMode> { ParseWpf(PortableName(m)) }
  function ToWinUI(m: BindingMode): Result<WinUIBindingMode> { ParseWinUI(PortableName(m)) }

  /** The conversion never throws, and lands on the values each toolkit gives
      the same-named member: Avalonia 1/2/3, WPF 1/0/2, WinUI 1/3/2 for
      OneWay/TwoWay/OneTime. */
  lemma ToLocalTotalAndValues(m: BindingMode)
    ensures ToAvalonia(m).Ok? && ToWpf(m).Ok? && ToWinUI(m).Ok?
    ensures AvaloniaValue(ToAvalonia(m).value) == (match m case OneWay => 1 case TwoWay => 2 case OneTime => 3)
    ensures WpfValue(ToWpf(m).value) == (match m case TwoWay => 0 case OneWay => 1 case OneTime => 2)
    ensures WinUIValue(ToWinUI(m).value) == (match m case OneWay => 1 case OneTime => 2 case TwoWay => 3)
  {
    match m {
      case OneWay =>
      case OneTime =>
        assert "OneTime" != "OneWay" by { assert "OneTime"[4] != "OneWay"[4]; }
        assert "OneTime" != "TwoWay" by { assert "OneTime"[0] != "TwoWay"[0]; }
        assert "OneTime" != "Default" by { assert "OneTime"[0] != "Default"[0]; }
      case TwoWay =>
        assert "TwoWay" != "OneWay" by { assert "TwoWay"[0] != "OneWay"[0]; }
        assert "TwoWay" != "Default" by { assert "TwoWay"[0] != "Default"[0]; }
    }
  }

  /** The conversion goes by name: the portable number is not kept (TwoWay is 2,
      but 0 in WPF and 3 in WinUI). */
  lemma ToLocalGoesByName()
    ensures PortableValue(TwoWay) != WpfValue(ToWpf(TwoWay).value)
    ensures PortableValue(TwoWay) != WinUIValue(ToWinUI(TwoWay).value)
  {
    ToLocalTotalAndValues(TwoWay);
  }

  /** Distinct portable modes stay distinct, and neither `Default` nor
      `OneWayToSource` is ever produced. */
  lemma ToLocalInjective(m: BindingMode, m': BindingMode)
    ensures m != m' ==> ToAvalonia(m) != ToAvalonia(m') && ToWpf(m) != ToWpf(m') && ToWinUI(m) != ToWinUI(m')
    ensures ToAvalonia(m).value !in {AvaloniaDefault, AvaloniaOneWayToSource}
    ensures ToWpf(m).value !in {WpfDefault, WpfOneWayToSource}
  {
    ToLocalTotalAndValues(m);
    ToLocalTotalAndValues(m');
  }
}
