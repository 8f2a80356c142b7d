/** The pixel location of hw2/colorImageFramework402.cpp: a plain pair of 32-bit indices. */
module RowColumn {
  import opened MachineInt

  /** The index both fields hold after default construction. */
  const IdxDefault: int32 := -99999

  class RowColumnClass {
    var rowIdx: int32
    var colIdx: int32

    constructor ()
      ensures rowIdx == IdxDefault && colIdx == IdxDefault
    {
      rowIdx := IdxDefault;
      colIdx := IdxDefault;
    }

    constructor FromValues(inRow: int32, inCol: int32)
      ensures rowIdx == inRow && colIdx == inCol
    {
      rowIdx := inRow;
      colIdx := inCol;
    }

    method SetRowCol(inRow: int32, inCol: int32)
      modifies this
      ensures rowIdx == inRow && colIdx == inCol
    {
      rowIdx := inRow;
      colIdx := inCol;
    }

    method SetRow(inRow: int32)
      modifies this
      ensures rowIdx == inRow && colIdx == old(colIdx)
    {
      rowIdx := inRow;
    }

    method SetCol(inCol: int32)
      modifies this
      ensures rowIdx == old(rowIdx) && colIdx == inCol
    {
      colIdx := inCol;
    }

    method GetRow() returns (row: int32)
      ensures row == rowIdx
    {
      row := rowIdx;
    }

    method GetCol() returns (col: int32)
      ensures col == colIdx
    {
      col := colIdx;
    }

    /**
     * Adds inRowCol to this location component-wise; inRowCol may be this object.
     * Signed overflow is undefined in C++, so callers keep both sums in 32 bits.
     */
    method AddRowColTo(inRowCol: RowColumnClass)
      requires InInt32(rowIdx as int + inRowCol.rowIdx as int)
      requires InInt32(colIdx as int + inRowCol.colIdx as int)
      modifies this
      ensures rowIdx as int == old(rowIdx) as int + old(inRowCol.rowIdx) as int
      ensures colIdx as int == old(colIdx) as int + old(inRowCol.colIdx) as int
    {
      var row := inRowCol.GetRow();
      rowIdx := rowIdx + row;
      var col := inRowCol.GetCol();
      colIdx := colIdx + col;
    }
  }
}
