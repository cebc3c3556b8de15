/**
 * A command-line option: its names, whether it is required or a flag, its
 * default, the values it accepts and the type hint shown in the help.
 *
 * Options are configured through setters and then registered with the
 * parser, which keeps its own copy; they are therefore modelled as values,
 * each setter returning the updated option.
 */
module CommandOptions {
  import opened Wrappers

  datatype CommandOption = CommandOption(
    longName: string,
    shortName: char,
    helpMessage: string,
    required: bool,
    defaultValue: Option<string>,
    validValues: seq<string>,
    isFlag: bool,
    customErrorMessage: string,
    optionTypeHint: string)
  {
    function SetDefaultValue(value: string): (r: CommandOption)
      ensures r.HasDefaultValue() && r.GetDefaultValue() == value
      ensures r.(defaultValue := defaultValue) == this
    {
      this.(defaultValue := Some(value))
    }

    function SetValidValues(values: seq<string>): (r: CommandOption)
      ensures r.validValues == values && r.(validValues := validValues) == this
    {
      this.(validValues := values)
    }

    function SetFlag(flag: bool): (r: CommandOption)
      ensures r.isFlag == flag && r.(isFlag := isFlag) == this
    {
      this.(isFlag := flag)
    }

    function SetCustomErrorMessage(message: string): (r: CommandOption)
      ensures r.customErrorMessage == message && r.(customErrorMessage := customErrorMessage) == this
    {
      this.(customErrorMessage := message)
    }

    function SetOptionTypeHint(hint: string): (r: CommandOption)
      ensures r.optionTypeHint == hint && r.(optionTypeHint := optionTypeHint) == this
    {
      this.(optionTypeHint := hint)
    }

    predicate HasDefaultValue()
    {
      defaultValue.Some?
    }

    /** `GetDefaultValue`: the default, or "" when none was set. */
    function GetDefaultValue(): (r: string)
      ensures !HasDefaultValue() ==> r == ""
      ensures HasDefaultValue() ==> r == defaultValue.value
    {
      defaultValue.GetOr("")
    }

    /**
     * `ValidateValue`: an empty value is refused unless the option is a
     * flag; with no list of valid values anything else is accepted,
     * otherwise the value must be on the list.
     */
    predicate ValidateValue(value: string): (ok: bool)
      ensures value == "" && !isFlag ==> !ok
      ensures validValues == [] ==> (ok <==> value != "" || isFlag)
      ensures validValues != [] && (value != "" || isFlag) ==>
        (ok <==> exists i :: 0 <= i < |validValues| && validValues[i] == value)
    {
      (value != "" || isFlag) && (validValues == [] || value in validValues)
    }
  }

  /** The option as the constructor leaves it: no default, no valid values, not a flag, no hints. */
  function NewOption(longName: string, shortName: char, helpMessage: string, required: bool): (o: CommandOption)
    ensures o.longName == longName && o.shortName == shortName && o.required == required
    ensures !o.HasDefaultValue() && o.GetDefaultValue() == ""
    ensures !o.isFlag && o.validValues == [] && o.optionTypeHint == ""
  {
    CommandOption(longName, shortName, helpMessage, required, None, [], false, "", "")
  }

  /** A fresh option accepts every non-empty value and refuses the empty one. */
  lemma NewOptionAcceptsNonEmpty(longName: string, shortName: char, helpMessage: string, required: bool, value: string)
    ensures NewOption(longName, shortName, helpMessage, required).ValidateValue(value) <==> value != ""
  {
  }

  /** A flag accepts the empty value; with valid values set, only listed values are accepted. */
  lemma ValidateValueCases(o: CommandOption, value: string)
    ensures value == "" && !o.isFlag ==> !o.ValidateValue(value)
    ensures o.validValues == [] && (value != "" || o.isFlag) ==> o.ValidateValue(value)
    ensures o.ValidateValue(value) && o.validValues != [] ==> value in o.validValues
  {
  }

  /** What a boolean option accepts: exactly "true" and "false". */
  lemma BooleanOptionValues(o: CommandOption, value: string)
    requires !o.isFlag
    ensures o.SetValidValues(["true", "false"]).ValidateValue(value) <==> value == "true" || value == "false"
  {
  }

  /** The valid values written one after another, each followed by ", ". */
  function JoinTrailing(values: seq<string>): (r: string)
  {
    if values == [] then "" else JoinTrailing(values[..|values| - 1]) + values[|values| - 1] + ", "
  }

  /** The valid values separated by ", ". */
  function Join(values: seq<string>): (r: string)
  {
    if values == [] then ""
    else if |values| == 1 then values[0]
    else Join(values[..|values| - 1]) + ", " + values[|values| - 1]
  }

  /** Dropping the last ", " of the trailing form gives the separated form. */
  lemma {:induction false} JoinTrailingIsJoin(values: seq<string>)
    requires values != []
    ensures JoinTrailing(values) == Join(values) + ", "
    decreases |values|
  {
    if |values| > 1 {
      var init := values[..|values| - 1];
      JoinTrailingIsJoin(init);
      assert init[..|init| - 1] == values[..|values| - 2];
    } else {
      assert values[..0] == [];
    }
  }

  /** The text the help shows for an option's argument, as a specification. */
  function TypeHintDisplay(o: CommandOption): string
  {
    var hint := if o.optionTypeHint == "" && o.validValues != [] then Join(o.validValues) else o.optionTypeHint;
    if hint == "" then "" else "<" + hint + ">"
  }

  /**
   * A set type hint is shown in angle brackets; without one, the valid
   * values separated by ", " are shown instead; with neither, nothing.
   */
  lemma TypeHintDisplayCases(o: CommandOption)
    ensures o.optionTypeHint != "" ==> TypeHintDisplay(o) == "<" + o.optionTypeHint + ">"
    ensures o.optionTypeHint == "" && Join(o.validValues) != "" ==>
      TypeHintDisplay(o) == "<" + Join(o.validValues) + ">"
    ensures o.optionTypeHint == "" && o.validValues == [] ==> TypeHintDisplay(o) == ""
    ensures TypeHintDisplay(o) != "" ==>
      |TypeHintDisplay(o)| >= 3 && TypeHintDisplay(o)[0] == '<' && TypeHintDisplay(o)[|TypeHintDisplay(o)| - 1] == '>'
  {
  }

  /** `GetOptionTypeHintDisplay`: appends each valid value and ", ", drops the last two characters, then brackets. */
  method GetOptionTypeHintDisplay(o: CommandOption) returns (typeHint: string)
    ensures typeHint == TypeHintDisplay(o)
  {
    typeHint := o.optionTypeHint;
    if typeHint == "" {
      if o.validValues != [] {
        for k := 0 to |o.validValues|
          invariant typeHint == JoinTrailing(o.validValues[..k])
        {
          assert o.validValues[..k + 1][..k] == o.validValues[..k];
          typeHint := typeHint + o.validValues[k] + ", ";
        }
        assert o.validValues[..|o.validValues|] == o.validValues;
        JoinTrailingIsJoin(o.validValues);
        typeHint := typeHint[..|typeHint| - 2];
      }
    }
    if typeHint != "" {
      typeHint := "<" + typeHint + ">";
    }
  }
}
