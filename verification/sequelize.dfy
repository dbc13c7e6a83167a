/** The part of Sequelize's query vocabulary that the translators emit. The
    operator symbols `Op.like` and `Op.or` become the constructor tags `Like`
    and `Or`. */
module Sequelize {

  /** A condition on one column: `{ [Op.like]: pattern }`, or
      `{ [Op.or]: [alternatives] }`. */
  datatype Cond = Like(pattern: string) | Or(alternatives: seq<Cond>)

  /** `{ [column]: cond }`, one member of a top-level `[Op.or]` group. */
  datatype ColumnCond = ColumnCond(column: string, cond: Cond)

  /** The LIKE pattern that matches `term` anywhere: `%term%`. */
  function Contains(term: string): (p: string)
    ensures |p| == |term| + 2 && p[0] == '%' && p[|p| - 1] == '%'
    ensures p[1..|p| - 1] == term
  {
    "%" + term + "%"
  }
}
