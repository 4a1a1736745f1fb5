/**
  The string payload of an HTML5 drag: `setData(format, value)` on the
  drag source, `getData(format)` on the drop target.
*/
module Dnd {

  /** The data items of a `DataTransfer`, keyed by format. */
  type DataTransfer = map<string, string>

  /** The format under which an asset card puts its id. */
  const AssetIdKey := "assetId"

  /** `dataTransfer.setData(format, value)`: a later value replaces an earlier one. */
  function SetData(dt: DataTransfer, format: string, value: string): DataTransfer {
    dt[format := value]
  }

  /** `dataTransfer.getData(format)`: the empty string when nothing was set. */
  function GetData(dt: DataTransfer, format: string): string {
    if format in dt then dt[format] else ""
  }
}
