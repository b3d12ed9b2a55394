/** A query as the parser builds it and the planner takes it (src/parse/QueryData.h). */
module QueryDatas {
  import opened Predicates

  /** tables are in the order of the source's set of names. */
  datatype QueryData = QueryData(
    fields: seq<string>, tables: seq<string>, subqueries: seq<QueryData>,
    pred: Predicate, group: seq<string>, sort: seq<string>)
}
