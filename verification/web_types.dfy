/** The reading record as the web dashboard receives it from `GET /api/data`. */
module WebTypes {

  /**
    One reading: the store's row identity, the sensor, the integer value and
    the timestamp exactly as the JSON text carried it.
  */
  datatype SensorData = SensorData(id: int, sensorId: int, value: int, timestamp: string)
}
